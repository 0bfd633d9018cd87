# Smb4K core, modelled in Dafny

Smb4K is a KDE front end for browsing and mounting SMB/CIFS shares. This
project models its core:

- the network-neighbourhood scanner that reconciles lookup results with the
  process-wide registry of workgroups, hosts, shares and mounted shares;
- the host record and its URL handling;
- the IP address scanner;
- the bookmark handler and the profile manager;
- the codec of the custom-options table in the configuration dialog;
- the rsync argument builder and the classifiers of rsync's output;
- the hardware interface (network state, sleep inhibition, mount polling,
  network-share devices) and the Solid interface (buttons, sleep and wake,
  network status);
- the configuration dialog's settings check and its decision to enable Apply.

Each module follows one source file. Code that only computes is a function
with lemmas. An object whose slots update its fields in place is a `class`
whose methods are proved against a pure step function on a state value
(`State() == XStep(old(State()), ...)`); the lemmas about the step
functions state what the source promises. Loops are methods with
invariants, proved equal to a specification function.

| file | module | models |
|---|---|---|
| common.dfy | Common | Option, first-match search, filtering, removal of one copy |
| text.dfy | Text | the QString operations the core relies on (ASCII upper case, index, section, split, integer conversion) |
| network_items.dfy | NetworkItems | QUrl parts, Smb4KHost (core/smb4khost.cpp), workgroups, shares |
| topology.dfy | Topology | the global lists and their find/add/remove functions (core/smb4kglobal.h) |
| scan_model.dfy, scanner.dfy | ScanModel, Scanning | Smb4KScanner (core/smb4kscanner.cpp) |
| ip_scanner.dfy | IpScanning | Smb4KIPAddressScanner (core/smb4kipaddressscanner.cpp) |
| bookmarks.dfy | Bookmarks | Smb4KBookmarkHandler (core/smb4kbookmarkhandler.cpp) |
| profiles.dfy | Profiles | Smb4KProfileManager (core/smb4kprofilemanager.cpp) |
| custom_options.dfy | CustomOptions | the custom-options table of smb4k/configdlg/smb4ksambaoptions.cpp |
| synchronizer.dfy | Synchronizer | the rsync job of core/smb4ksynchronizer_p.cpp |
| hardware.dfy | Hardware | Smb4KHardwareInterface (core/smb4khardwareinterface.cpp) |
| solid.dfy | SolidInterface | Smb4KSolidInterface (core/smb4ksolidinterface.cpp) |
| config_dialog.dfy | ConfigDialog | checkSettings, slotButtonClicked and slotEnableApplyButton of smb4k/configdlg/smb4kconfigdialog.cpp |

## Model

| member | source | states |
|---|---|---|
| NetworkItems.ParsePort | core/smb4khost.cpp:86-109 | a port parsed from a UNC is -1 (unset) or a number |
| NetworkItems.ParseAuthorityText | core/smb4khost.cpp:86-109 | the authority text of a well-formed URL parses back to its user, password, host and port |
| NetworkItems.ParseRender | core/smb4khost.cpp:86-115 | rendering a well-formed URL in full and parsing it gives the URL back; this includes a URL without an authority, which renders with no "//", and the empty URL, which renders as "" |
| NetworkItems.ParseAuthorityWellFormed | core/smb4khost.cpp:86-109 | every component of a parsed authority is free of the delimiters that separate components |
| NetworkItems.IsEmptyIffDefault | core/smb4khost.cpp:168-206 | isEmpty() holds exactly when every field that isEmpty() reads has its default value |
| NetworkItems.NamedHostNotEmpty | core/smb4khost.cpp:39-46 | a host made from a name is not empty, and its hostName() is that name in upper case |
| NetworkItems.EqualsIgnoresFlags | core/smb4khost.cpp:221-289 | equals() does not depend on the info-checked, IP-checked and master-browser flags |
| NetworkItems.SetIPStoresAsGiven | core/smb4khost.cpp:124-129 | setIP marks the address as checked and stores what it was given; a later call overrides it |
| NetworkItems.SetInfoWithoutInfo | core/smb4khost.cpp:138-153 | resetInfo undoes setInfo, clears the checked flag, and is idempotent |
| NetworkItems.SetUNCGuard | core/smb4khost.cpp:86-109 | a UNC the guard refuses leaves the host unchanged; an accepted one replaces only the URL |
| NetworkItems.UncAcceptedRender | core/smb4khost.cpp:86-96 | the guard lets a rendered URL with an authority through when the scheme is absent or "smb", or the path holds no slash; without an authority it lets the rendering through exactly when the scheme is "smb" (for an empty or removed path), so "" is refused |
| NetworkItems.SetUNCOfRender | core/smb4khost.cpp:86-115 | setting the UNC from a rendered well-formed URL that the guard accepts restores that URL, with "smb" as the default scheme; a URL with no authority, no path and no "smb" scheme, the empty URL among them, leaves the host unchanged |
| NetworkItems.CopyHostUrl | core/smb4khost.cpp:49-55 | the URL of a copy is the parse of the original's unc() when the URL has an authority or the "smb" scheme; otherwise unc() is refused and the copy's URL stays empty |
| NetworkItems.CopyHostKeepsFields | core/smb4khost.cpp:49-55 | the copy constructor keeps every field except the URL |
| NetworkItems.CopyHostKeepsName | core/smb4khost.cpp:49-55 | a copy keeps the host name and the port and drops the path; it keeps the scheme (defaulting to "smb") when the URL has an authority or the "smb" scheme, and otherwise its URL is empty |
| NetworkItems.CopyEmptyHost | core/smb4khost.cpp:49-55 | the unc() of an empty host, the default one among them, is "", setUNC refuses it, and the copy is the host itself |
| NetworkItems.CopyHostIdempotent | core/smb4khost.cpp:49-55 | copying a copy changes nothing more when the URL holds no user information |
| NetworkItems.EqualsReflexiveWhenCanonical | core/smb4khost.cpp:221-289 | a host with no path and an upper-case name is equal to itself |
| NetworkItems.EqualsNotReflexiveForLowerCase | core/smb4khost.cpp:221-289 | equals() compares this host's own URL with the other's unc(), so a host with a lower-case letter in its name is not equal to itself |
| NetworkItems.HostObject.constructor | core/smb4khost.cpp:58-63 | the default host: every field empty or false, protocol Automatic |
| NetworkItems.HostObject.Named | core/smb4khost.cpp:39-46 | the host at "smb://name" |
| NetworkItems.HostObject.Copy | core/smb4khost.cpp:49-55 | the copy: the fields of the other host, with its URL set from the other's unc() through the setUNC guard, so an empty host copies to an empty host |
| NetworkItems.HostObject.SetHostName | core/smb4khost.cpp:71-83 | the URL's host replaced, the scheme defaulting to "smb" |
| NetworkItems.HostObject.SetUNC | core/smb4khost.cpp:86-109 | the guarded URL update of setUNC |
| NetworkItems.HostObject.SetWorkgroupName | core/smb4khost.cpp:118-121 | only the workgroup changes |
| NetworkItems.HostObject.SetIP | core/smb4khost.cpp:124-129 | the address stored through ipIsValid, and the IP marked as checked |
| NetworkItems.HostObject.SetComment | core/smb4khost.cpp:132-135 | only the comment changes |
| NetworkItems.HostObject.SetInfo | core/smb4khost.cpp:138-144 | server and OS strings stored, and the info marked as checked |
| NetworkItems.HostObject.ResetInfo | core/smb4khost.cpp:147-153 | server and OS strings cleared, and the info marked as unchecked |
| NetworkItems.HostObject.SetIsMasterBrowser | core/smb4khost.cpp:156-159 | only the master-browser flag changes |
| NetworkItems.HostObject.SetProtocol | core/smb4khost.cpp:162-165 | only the protocol changes |
| Topology.FindWorkgroup | core/smb4kglobal.h:63-69 | the position of the first workgroup with that name, case-insensitively; none exactly when no workgroup has that name |
| Topology.FindHost | core/smb4kglobal.h:111-123 | the first host with that name in that workgroup, where an empty workgroup matches any; none exactly when there is no such host |
| Topology.FindShare | core/smb4kglobal.h:177-193 | the first share with that name on that host, the workgroup optional; none exactly when there is no such share |
| Topology.FindShareByPath | core/smb4kglobal.h:247-252 | the first mounted share at that mount point; none exactly when nothing is mounted there |
| Topology.AddWorkgroupContract | core/smb4kglobal.h:71-82 | addWorkgroup appends exactly when no workgroup of that name is known, and keeps names unique |
| Topology.AddHostContract | core/smb4kglobal.h:125-136 | addHost appends exactly when findHost fails, and keeps host keys unique |
| Topology.AddShareContract | core/smb4kglobal.h:195-206 | addShare appends exactly when findShare fails, and keeps share keys unique |
| Topology.AddMountedShareContract | core/smb4kglobal.h:276-287 | addMountedShare appends exactly when nothing is mounted at that path |
| Topology.RemoveContract | core/smb4kglobal.h:84-96 | a remove function drops exactly one copy when the item is listed, and keeps the keys unique |
| Topology.FindHostWildcard | core/smb4kglobal.h:111-123 | a host found in a given workgroup is also found with an empty workgroup; with an empty workgroup, nothing is found only when no host has that name |
| Topology.WorkgroupMembersExactly | core/smb4kglobal.h:157-167 | workgroupMembers returns exactly the listed hosts of that workgroup |
| Topology.SharedResourcesExactly | core/smb4kglobal.h:227-237 | sharedResources returns exactly the listed shares of that host |
| Topology.FindShareByUNCExactly | core/smb4kglobal.h:254-267 | findShareByUNC returns every mount with that UNC, each as often as it is listed |
| Topology.StrippedUncOfUrl | core/smb4kglobal.h:254-267 | the stripped UNC of a rendered URL is "//", the host and the path; the scheme, the user info and the port do not take part in it, unless dropping them turns a path that starts with "//" into the authority |
| Topology.RemoveMembers | core/smb4kglobal.h:157-167 | removing a workgroup's members one by one leaves exactly the hosts of other workgroups |
| Topology.RemoveSharedResources | core/smb4kglobal.h:227-237 | removing a host's shares one by one leaves exactly the shares of other hosts |
| Topology.Registry.constructor | core/smb4kglobal.h:55-61 | four empty lists |
| Topology.Registry.AddWorkgroup | core/smb4kglobal.h:71-82 | returns whether the workgroup was added; the list becomes WithWorkgroup and keys stay unique |
| Topology.Registry.RemoveWorkgroup | core/smb4kglobal.h:84-96 | returns whether the workgroup was listed; one copy removed |
| Topology.Registry.ClearWorkgroupsList | core/smb4kglobal.h:98-101 | the workgroup list emptied, the other lists unchanged |
| Topology.Registry.AddHost | core/smb4kglobal.h:125-136 | returns whether the host was added; the list becomes WithHost and keys stay unique |
| Topology.Registry.RemoveHost | core/smb4kglobal.h:138-150 | returns whether the host was listed; one copy removed |
| Topology.Registry.ClearHostsList | core/smb4kglobal.h:152-155 | the host list emptied, the other lists unchanged |
| Topology.Registry.UpdateHost | core/smb4kglobal.h:103-109 | a change through a pointer into the host list replaces that entry only, and keeps its key |
| Topology.Registry.UpdateWorkgroup | core/smb4kglobal.h:55-61 | a change through a pointer into the workgroup list replaces that entry only, and keeps its key |
| Topology.Registry.AddShare | core/smb4kglobal.h:195-206 | returns whether the share was added; the list becomes WithShare |
| Topology.Registry.RemoveShare | core/smb4kglobal.h:208-220 | returns whether the share was listed; one copy removed |
| Topology.Registry.ClearSharesList | core/smb4kglobal.h:222-225 | the share list emptied, the other lists unchanged |
| Topology.Registry.AddMountedShare | core/smb4kglobal.h:276-287 | returns whether the mounted share was added; the list becomes WithMountedShare |
| Topology.Registry.RemoveMountedShare | core/smb4kglobal.h:289-301 | returns whether the mounted share was listed; one copy removed |
| ScanModel.FirstMissing | core/smb4kscanner.cpp:405-456 | the reported program is one of the strategy's programs and is not available; none exactly when all are available |
| ScanModel.StrategyPrecedence | core/smb4kscanner.cpp:405-678 | lookupDomains takes exactly one strategy, in the order lookupDomains, queryCurrentMaster, queryCustomMaster, scanBroadcastAreas, and none when no setting is on |
| ScanModel.FirstMissingIsFirst | core/smb4kscanner.cpp:405-456 | every program the strategy looks up before the reported one is available |
| ScanModel.LookupDomainsContract | core/smb4kscanner.cpp:397-708 | with no strategy nothing changes; a missing program is reported and nothing is cached, announced or started; otherwise a new worker is cached under the key, announced, and the strategy's state set |
| ScanModel.MissingProgramStartsNothing | core/smb4kscanner.cpp:711-972 | without net or smbclient the member, share and information lookups only report the missing program |
| ScanModel.LookupDomainMembersContract | core/smb4kscanner.cpp:711-816 | a worker starts only for a workgroup whose master browser is a known host; otherwise the known members are reported |
| ScanModel.LookupInfoKnown | core/smb4kscanner.cpp:896-909 | a host whose information the registry already checked is answered from the registry, and nothing starts |
| ScanModel.SecondLookupReplaces | core/smb4kscanner.cpp:882-963 | a second lookup under a cached key replaces the first worker; nothing rejects it |
| ScanModel.AbortOnlyFlags | core/smb4kscanner.cpp:85-173 | abort only raises abort flags; no worker is added or dropped |
| ScanModel.ShareLookupsFallThrough | core/smb4kscanner.cpp:85-394 | the case for information lookups falls through to share lookups in abort, isAborted and isRunning, but not the other way round |
| ScanModel.AbortThenAborted | core/smb4kscanner.cpp:85-266 | after abort(NULL, p), isAborted(NULL, p) holds exactly when some cached worker with a process matches p |
| ScanModel.AbortItem | core/smb4kscanner.cpp:85-266 | abort of an item raises the flag exactly when its worker is running or starting |
| ScanModel.AbortAllContract | core/smb4kscanner.cpp:269-301 | abortAll aborts every running or starting worker, leaves the others alone, and does nothing while the application closes |
| ScanModel.ThreadsFinishedContract | core/smb4kscanner.cpp:1036-1093 | exactly the unfinished workers stay, unchanged; the cache shrinks by the number of finished ones; an empty cache stops the scanner |
| ScanModel.InsertHostContract | core/smb4kscanner.cpp:975-1021 | a copy is added exactly when findHost fails and is found afterwards; an unknown workgroup is created with the host as its pseudo master browser |
| ScanModel.EnrichFromContract | core/smb4kscanner.cpp:1343-1393 | an empty comment is filled, the protocol is copied, information and IP are copied only when the transient host has not checked them; URL, workgroup and master flag are kept |
| ScanModel.EnrichAllKeys | core/smb4kscanner.cpp:1341-1398 | enrichment keeps every host's URL and workgroup, hence its key |
| ScanModel.ReplaceHostContract | core/smb4kscanner.cpp:1406-1423 | after one replacement the copy is listed, hosts with other keys are kept, nothing else is added, and keys stay unique |
| ScanModel.CopyKeptByReplace | core/smb4kscanner.cpp:1406-1423 | a copy already listed survives the replacement of a host with another key |
| ScanModel.ReplaceHostsContract | core/smb4kscanner.cpp:1402-1424 | after the loop every listed host is in the registry as a copy, hosts matching no listed key stay, and keys stay unique |
| ScanModel.HostsStepListed | core/smb4kscanner.cpp:1337-1424 | slotHosts with a non-empty list puts a copy of every completed entry in the registry and keeps hosts with no listed key |
| ScanModel.HostsStepEmpty | core/smb4kscanner.cpp:1425-1446 | slotHosts with an empty list removes exactly the workgroup's members |
| ScanModel.PickMountContract | core/smb4kscanner.cpp:1489-1510 | the mount data comes from the first mount that is not foreign, or from the first mount when all are foreign |
| ScanModel.WithMountsContract | core/smb4kscanner.cpp:1487-1517 | a share keeps its name, host and workgroup, and takes its mount data from a mount with the same UNC, if any |
| ScanModel.ReplaceShareContract | core/smb4kscanner.cpp:1519-1531 | after one replacement the share is listed, shares with other keys are kept, and keys stay unique |
| ScanModel.ShareKeptByReplace | core/smb4kscanner.cpp:1519-1531 | a share already listed survives the replacement of a share with another key |
| ScanModel.MergeSharesContract | core/smb4kscanner.cpp:1472-1533 | after the loop every listed share, with its mount data, is in the registry, shares with no listed key stay, and keys stay unique |
| ScanModel.SharesStepListed | core/smb4kscanner.cpp:1467-1533 | slotShares with a non-empty list puts every listed share, with its mount data, in the registry, keeps shares with no listed key, keeps keys unique, and leaves hosts and workgroups alone |
| ScanModel.SharesStepEmpty | core/smb4kscanner.cpp:1534-1549 | slotShares with an empty list removes every share of the host and nothing else, and reports an empty list |
| ScanModel.InformationContract | core/smb4kscanner.cpp:1553-1578 | checked information ends up on the registry host with the same key; unchecked information changes nothing but is reported |
| ScanModel.DemoteMasterContract | core/smb4kscanner.cpp:1172-1183 | only the old master browser, if known, loses its master flag |
| ScanModel.PromoteMasterContract | core/smb4kscanner.cpp:1185-1218 | afterwards the entry's master browser is a registry host marked as master browser, with the entry's IP when it has one; other hosts stay in place and at most one host is added |
| ScanModel.KnownWorkgroupMerge | core/smb4kscanner.cpp:1164-1227 | for a known workgroup whose master browser changed, the old one is demoted and the new one promoted or created; an unchanged master browser leaves the hosts alone; the workgroup leaves the list either way |
| ScanModel.NewWorkgroupMerge | core/smb4kscanner.cpp:1228-1266 | an entry for an unknown workgroup promotes or creates its master browser and leaves the workgroup list alone |
| ScanModel.MergeKeepsAbsent | core/smb4kscanner.cpp:1160-1268 | the first loop keeps every workgroup that no entry names |
| ScanModel.PruneContract | core/smb4kscanner.cpp:1277-1291 | the second loop empties the workgroup list, only removes hosts, and leaves no member of any workgroup it went through |
| ScanModel.AddWorkgroupsFrom | core/smb4kscanner.cpp:1294-1297 | every workgroup after the third loop was listed before or is an entry |
| ScanModel.AddWorkgroupsNamed | core/smb4kscanner.cpp:1294-1297 | every entry's name is listed after the third loop |
| ScanModel.FillMasterIPsKeepNames | core/smb4kscanner.cpp:1301-1330 | the fourth loop changes only master browser IPs, and only of workgroups that had none |
| ScanModel.AbsentWorkgroupRemoved | core/smb4kscanner.cpp:1155-1334 | after slotWorkgroups a workgroup that no entry names is gone, and so is each of its member hosts |
| ScanModel.WorkgroupsCopied | core/smb4kscanner.cpp:1155-1334 | after slotWorkgroups every entry's name is listed, every workgroup is an entry up to the master browser IP, and an empty result list empties the workgroup list |
| Scanning.Scanner.constructor | core/smb4kscanner.cpp:78-82 | a scanner that is not working and has an empty cache |
| Scanning.Scanner.Abort | core/smb4kscanner.cpp:85-173 | the cache becomes AbortCache; nothing else changes |
| Scanning.Scanner.IsAborted | core/smb4kscanner.cpp:176-266 | the answer is IsAbortedIn of the cache |
| Scanning.Scanner.IsRunning | core/smb4kscanner.cpp:304-394 | the answer is IsRunningIn of the cache |
| Scanning.Scanner.AbortAll | core/smb4kscanner.cpp:269-301 | the cache becomes AbortAllCache; nothing else changes |
| Scanning.Scanner.AboutToQuit | core/smb4kscanner.cpp:1029-1033 | the same change as abortAll |
| Scanning.Scanner.ThreadFinished | core/smb4kscanner.cpp:1036-1093 | the state becomes AfterThreadsFinished; one finished signal for each finished worker is appended, and no other |
| Scanning.Scanner.Start | core/smb4kscanner.cpp:682-706 | the common tail of a lookup: state set, working started on an empty cache, worker announced and cached |
| Scanning.Scanner.ScanDomains | core/smb4kscanner.cpp:397-708 | the state becomes LookupDomainsStep |
| Scanning.Scanner.ScanDomainMembers | core/smb4kscanner.cpp:711-816 | the state becomes LookupDomainMembersStep |
| Scanning.Scanner.ScanShares | core/smb4kscanner.cpp:819-893 | the state becomes LookupSharesStep |
| Scanning.Scanner.ScanInfo | core/smb4kscanner.cpp:896-972 | the state becomes LookupInfoStep |
| Scanning.Scanner.InsertHost | core/smb4kscanner.cpp:975-1021 | the state becomes InsertHostStep and registry keys stay unique |
| Scanning.Scanner.SlotWorkgroups | core/smb4kscanner.cpp:1155-1334 | the state becomes WorkgroupsStep and registry keys stay unique |
| Scanning.Scanner.SlotHosts | core/smb4kscanner.cpp:1337-1464 | the state becomes HostsStep and registry keys stay unique |
| Scanning.Scanner.SlotShares | core/smb4kscanner.cpp:1467-1550 | the state becomes SharesStep and registry keys stay unique |
| Scanning.Scanner.SlotInformation | core/smb4kscanner.cpp:1553-1578 | the state becomes InformationStep and registry keys stay unique |
| Scanning.SweepFinished | core/smb4kscanner.cpp:1040-1080 | the loop keeps exactly the unfinished workers and gives one finished signal for each finished worker, and no other |
| Scanning.FinishedEventsListed | core/smb4kscanner.cpp:1040-1080 | the signals for a listing of the finished keys are exactly the finished signals of those workers |
| Scanning.FinishedOrder | core/smb4kscanner.cpp:1040-1080 | a repetition-free listing of the finished keys has one entry for each finished worker |
| Scanning.AddPseudoWorkgroup | core/smb4kscanner.cpp:986-998 | the added host is marked as master browser and its workgroup is added with it as pseudo master browser |
| Scanning.DemoteMasterIn | core/smb4kscanner.cpp:1172-1183 | the hosts become DemoteMaster of the old hosts |
| Scanning.PromoteMasterIn | core/smb4kscanner.cpp:1185-1218 | the hosts become PromoteMaster of the old hosts |
| Scanning.MergeEntriesIn | core/smb4kscanner.cpp:1160-1268 | the registry becomes MergeEntries of the old registry |
| Scanning.MergeEntryIn | core/smb4kscanner.cpp:1164-1266 | the registry becomes MergeEntry of the old registry |
| Scanning.RemoveHostsIn | core/smb4kscanner.cpp:1282-1288 | the given hosts are removed one by one |
| Scanning.RemoveSharesIn | core/smb4kscanner.cpp:1539-1546 | the given shares are removed one by one |
| Scanning.PruneIn | core/smb4kscanner.cpp:1277-1291 | the registry becomes Prune of the old registry |
| Scanning.AddWorkgroupsIn | core/smb4kscanner.cpp:1294-1297 | the workgroups become AddWorkgroups of the old list and the entries |
| Scanning.FillMasterIPsIn | core/smb4kscanner.cpp:1301-1330 | the workgroups become FillMasterIPs, and the blocking lookups asked for are MasterLookups |
| Scanning.FillMasterIPIn | core/smb4kscanner.cpp:1303-1328 | one workgroup becomes FillMasterIP, with its lookup |
| Scanning.EnrichIn | core/smb4kscanner.cpp:1341-1398 | the result is EnrichAll of the transient hosts |
| Scanning.ReplaceHostsIn | core/smb4kscanner.cpp:1404-1424 | the hosts become ReplaceHosts of the old hosts |
| Scanning.ReplaceHostIn | core/smb4kscanner.cpp:1406-1423 | the hosts become ReplaceHost of the old hosts |
| Scanning.AddHostCopiesIn | core/smb4kscanner.cpp:1455-1458 | the hosts become AddHostCopies of the old hosts |
| Scanning.PickMountOf | core/smb4kscanner.cpp:1496-1509 | the result is PickMount of the mounts |
| Scanning.MergeSharesIn | core/smb4kscanner.cpp:1472-1533 | the shares become MergeShares of the old shares |
| Scanning.MergeShareIn | core/smb4kscanner.cpp:1474-1532 | the shares become ReplaceShare of the old shares with the share's mount data |
| IpScanning.CheckedHostUntouched | core/smb4kipaddressscanner.cpp:72-80 | a host whose address was already checked is left alone and nothing starts |
| IpScanning.CopiedFromRegistry | core/smb4kipaddressscanner.cpp:84-94 | a registry twin with a checked address gives the host its address, ipAddress is emitted, and no worker starts |
| IpScanning.MissingProgramNoWorker | core/smb4kipaddressscanner.cpp:96-131 | without nmblookup, grep or awk no worker is started |
| IpScanning.WorkerCachedByName | core/smb4kipaddressscanner.cpp:133-172 | a started worker is cached under the host name, replacing any worker cached there; no other entry changes; with wait it has finished |
| IpScanning.RegistryHostNotCopied | core/smb4kipaddressscanner.cpp:84-94 | a host of a registry whose keys are unique is its own first match, so lookup never copies an address to it |
| IpScanning.LookupListCovers | core/smb4kipaddressscanner.cpp:178-184 | after the list overload every listed host has a checked address or a worker under its name, when no program is missing |
| IpScanning.ProcessStepContract | core/smb4kipaddressscanner.cpp:214-239 | a result changes only the host's registry copy, and only to a new, different address; an unknown host or one without an IP changes nothing |
| IpScanning.IpUnfinishedContract | core/smb4kipaddressscanner.cpp:242-259 | slotThreadFinished drops exactly the finished workers and keeps the others unchanged |
| IpScanning.IpScanner.constructor | core/smb4kipaddressscanner.cpp:54-63 | an empty cache and no signals |
| IpScanning.IpScanner.Lookup | core/smb4kipaddressscanner.cpp:72-175 | the state becomes LookupWorld and the host is returned as LookupHost leaves it |
| IpScanning.IpScanner.LookupAll | core/smb4kipaddressscanner.cpp:178-184 | the state becomes LookupList, and each host is returned as LookupHost leaves it |
| IpScanning.IpScanner.ProcessIPAddress | core/smb4kipaddressscanner.cpp:214-239 | the registry hosts become ProcessStep and keys stay unique |
| IpScanning.IpScanner.ThreadFinished | core/smb4kipaddressscanner.cpp:242-259 | the cache keeps exactly the unfinished workers |
| IpScanning.IpScanner.AboutToQuit | core/smb4kipaddressscanner.cpp:191-211 | every running or starting worker is aborted |
| Bookmarks.UpdateAll | core/smb4kbookmarkhandler.cpp:713-737 | update() keeps every bookmark and changes at most its IP address |
| Bookmarks.RefreshedContract | core/smb4kbookmarkhandler.cpp:716-734 | a bookmark takes the non-blank address of its known registry host; a bookmark whose host is unknown is left alone |
| Bookmarks.UpdateAllIdempotent | core/smb4kbookmarkhandler.cpp:713-737 | running update() twice changes nothing more |
| Bookmarks.RefreshAll | core/smb4kbookmarkhandler.cpp:716-736 | the in-place loop of update() computes UpdateAll |
| Bookmarks.FindFirstIn | core/smb4kbookmarkhandler.cpp:594-641 | the search loops of findBookmarkByUNC and findBookmarkByLabel give the first match |
| Bookmarks.FindByLabelOnLabels | core/smb4kbookmarkhandler.cpp:619-641 | whether a label is found depends only on the labels |
| Bookmarks.InGroup | core/smb4kbookmarkhandler.cpp:654-675 | bookmarksList(group) holds exactly the bookmarks whose group matches, ignoring case |
| Bookmarks.FilterInPlace | core/smb4kbookmarkhandler.cpp:325-340 | the mutable-iterator loops keep exactly the elements that pass, in order |
| Bookmarks.AddStepShape | core/smb4kbookmarkhandler.cpp:234-247 | one incoming bookmark is appended as it is, or as "<label> (1)" exactly when its non-empty label is already used; earlier entries change only their IP |
| Bookmarks.AddAllContract | core/smb4kbookmarkhandler.cpp:215-248 | the old entries with refreshed IPs, then one entry per incoming bookmark in order, renamed exactly when its label is taken by an entry before it |
| Bookmarks.AppendAll | core/smb4kbookmarkhandler.cpp:234-247 | the append loop computes AddAll |
| Bookmarks.AppendNewContract | core/smb4kbookmarkhandler.cpp:250-260 | the group loop keeps the old list as a prefix, lists every name afterwards, and adds nothing else |
| Bookmarks.AppendNewApart | core/smb4kbookmarkhandler.cpp:250-260 | the group loop keeps a list free of duplicates free of them |
| Bookmarks.AppendNewIn | core/smb4kbookmarkhandler.cpp:250-260 | the group loop computes AppendNew |
| Bookmarks.SortStringsContract | core/smb4kbookmarkhandler.cpp:262 | sorting gives an ordered permutation and keeps a list free of duplicates free of them |
| Bookmarks.SortedListed | core/smb4kbookmarkhandler.cpp:262 | sorting keeps exactly the listed names |
| Bookmarks.WrittenContract | core/smb4kbookmarkhandler.cpp:364-459 | unless listOnly, the stored bookmarks of other profiles stay, those of the active profile are dropped, and the given list is appended; only bookmarks with a valid URL are written |
| Bookmarks.GroupsCollected | core/smb4kbookmarkhandler.cpp:540-543 | the group loop lists each group of the bookmarks exactly once |
| Bookmarks.SortedCovers | core/smb4kbookmarkhandler.cpp:262 | a group list that covers the bookmarks still covers them after sorting |
| Bookmarks.LoadedContract | core/smb4kbookmarkhandler.cpp:462-591 | reading the file gives exactly the active profile's bookmarks and each of their groups once |
| Bookmarks.AddBookmarksGroups | core/smb4kbookmarkhandler.cpp:215-267 | after addBookmarks the groups are sorted, hold every incoming group and otherwise only old ones (none when replacing), and stay free of duplicates |
| Bookmarks.RemoveBookmarkContract | core/smb4kbookmarkhandler.cpp:270-292 | removeBookmark drops exactly the first bookmark whose UNC and group match ignoring case, and nothing when none matches |
| Bookmarks.RemoveBookmarkGroups | core/smb4kbookmarkhandler.cpp:294-308 | afterwards the groups are sorted, free of duplicates, and exactly the groups of the remaining bookmarks |
| Bookmarks.RebuiltGroups | core/smb4kbookmarkhandler.cpp:294-308 | a group list rebuilt from bookmarks and sorted is ordered, free of duplicates, and covers the bookmarks |
| Bookmarks.RemoveGroupContract | core/smb4kbookmarkhandler.cpp:321-340 | removeGroup drops every bookmark of the group, ignoring case, and keeps all others |
| Bookmarks.RemoveGroupGroups | core/smb4kbookmarkhandler.cpp:342-356 | afterwards the groups are sorted, free of duplicates ignoring case, cover the remaining bookmarks, and do not list the removed group |
| Bookmarks.MigrateContract | core/smb4kbookmarkhandler.cpp:740-774 | migrateProfile leaves no bookmark under the old name (unless the names are equal) and changes nothing but profile names |
| Bookmarks.RenameProfileIn | core/smb4kbookmarkhandler.cpp:749-755 | the in-place rename loop computes RenamedProfile |
| Bookmarks.RemoveProfileContract | core/smb4kbookmarkhandler.cpp:777-814 | removeProfile keeps exactly the valid bookmarks of other profiles; removing the active profile leaves no bookmarks in memory |
| Bookmarks.BookmarkHandler.constructor | core/smb4kbookmarkhandler.cpp:64-89 | the state read from the file for the active profile |
| Bookmarks.BookmarkHandler.ActiveProfileChanged | core/smb4kbookmarkhandler.cpp:817-829 | the lists are cleared and read again for the new profile |
| Bookmarks.BookmarkHandler.WriteBookmarkList | core/smb4kbookmarkhandler.cpp:364-459 | the file becomes Written; the lists in memory stay |
| Bookmarks.BookmarkHandler.Update | core/smb4kbookmarkhandler.cpp:713-737 | the bookmarks become UpdateAll |
| Bookmarks.BookmarkHandler.AddBookmarks | core/smb4kbookmarkhandler.cpp:215-267 | the state becomes AddBookmarksStep |
| Bookmarks.BookmarkHandler.RemoveBookmark | core/smb4kbookmarkhandler.cpp:270-318 | the state becomes RemoveBookmarkStep |
| Bookmarks.BookmarkHandler.RemoveGroup | core/smb4kbookmarkhandler.cpp:321-361 | the state becomes RemoveGroupStep |
| Bookmarks.BookmarkHandler.FindBookmarkByUNC | core/smb4kbookmarkhandler.cpp:594-616 | after update(), the first bookmark whose upper-cased UNC equals the upper-cased argument, or none exactly when there is no such bookmark |
| Bookmarks.BookmarkHandler.FindBookmarkByLabel | core/smb4kbookmarkhandler.cpp:619-641 | after update(), the first bookmark whose upper-cased label equals the upper-cased argument, or none exactly when there is no such bookmark |
| Bookmarks.BookmarkHandler.BookmarksList | core/smb4kbookmarkhandler.cpp:654-675 | after update(), the bookmarks of the group, ignoring case |
| Bookmarks.BookmarkHandler.MigrateProfile | core/smb4kbookmarkhandler.cpp:740-774 | the file holds the renamed bookmarks and the lists are read again |
| Bookmarks.BookmarkHandler.RemoveProfile | core/smb4kbookmarkhandler.cpp:777-814 | the file holds the bookmarks of other profiles and the lists are read again |
| Profiles.SetActiveContract | core/smb4kprofilemanager.cpp:81-108 | with profiles in use the name becomes active and a change is reported exactly when it differs; without profiles the active name is cleared and a change is reported exactly when it was set; nothing else changes |
| Profiles.SetActiveSignals | core/smb4kprofilemanager.cpp:110-129 | a change is saved to the settings and announced unless the manager is silenced; no change leaves everything as it was |
| Profiles.SetActiveIdempotent | core/smb4kprofilemanager.cpp:81-130 | setting the same name twice reports no change the second time |
| Profiles.ProfilesList | core/smb4kprofilemanager.cpp:139-142 | empty whenever profiles are not in use, otherwise the profile list |
| Profiles.ReplaceFirstContract | core/smb4kprofilemanager.cpp:156-169 | only the first entry equal to the old name is replaced; every other entry stays |
| Profiles.ReplaceFirstIn | core/smb4kprofilemanager.cpp:156-169 | the replace loop, stopping at the first match, computes ReplaceFirst |
| Profiles.WithoutFirstContract | core/smb4kprofilemanager.cpp:200-218 | only the first entry equal to the name goes: one copy fewer, everything else kept in order |
| Profiles.WithoutFirstIn | core/smb4kprofilemanager.cpp:200-218 | the removal loop, stopping at the first match, computes WithoutFirst |
| Profiles.MigrateContract | core/smb4kprofilemanager.cpp:151-193 | without profiles nothing changes; otherwise the first matching entry is renamed, the active profile follows a rename of it, and the handlers are told to migrate |
| Profiles.RemoveContract | core/smb4kprofilemanager.cpp:196-251 | without profiles nothing changes; otherwise the first matching entry goes, and a removed active profile is replaced by the first remaining entry, or kept when none remains |
| Profiles.ConfigChangedContract | core/smb4kprofilemanager.cpp:254-304 | afterwards the manager mirrors the configuration, it is no longer silenced, and the silenced setActiveProfile call announced nothing |
| Profiles.ConfiguredActiveListed | core/smb4kprofilemanager.cpp:281-291 | the profile slotConfigChanged activates is listed whenever profiles exist, and is the configured one when that is set and listed |
| Profiles.ProfileManager.constructor | core/smb4kprofilemanager.cpp:46-67 | the state read from the configuration: with profiles, the configured active profile or else the first one; without, no profiles and no active name |
| Profiles.ProfileManager.SetActiveProfile | core/smb4kprofilemanager.cpp:81-130 | the new state and the answer are SetActive's |
| Profiles.ProfileManager.ProfilesListOf | core/smb4kprofilemanager.cpp:139-142 | the answer is ProfilesList of the state |
| Profiles.ProfileManager.MigrateProfile | core/smb4kprofilemanager.cpp:151-193 | the state becomes MigrateStep |
| Profiles.ProfileManager.RemoveProfile | core/smb4kprofilemanager.cpp:196-251 | the state becomes RemoveStep |
| Profiles.ProfileManager.ConfigChanged | core/smb4kprofilemanager.cpp:254-304 | the state becomes ConfigChangedStep |
| CustomOptions.AsId | smb4k/configdlg/smb4ksambaoptions.cpp:1182-1199 | the cast to the unsigned 32-bit id type keeps values in range and wraps negative ones |
| CustomOptions.DecodeProtocolContract | smb4k/configdlg/smb4ksambaoptions.cpp:1131-1150 | "automatic", "RPC", "RAP" and "ADS" decode to their protocols whatever their case, and every other text to an undefined protocol |
| CustomOptions.ProtocolRoundTrip | smb4k/configdlg/smb4ksambaoptions.cpp:949-991 | every explicit protocol survives encoding and decoding |
| CustomOptions.ExplicitProtocolRoundTrip | smb4k/configdlg/smb4ksambaoptions.cpp:949-973 | the text of every protocol decodes to that protocol |
| CustomOptions.UndefinedProtocolRoundTrip | smb4k/configdlg/smb4ksambaoptions.cpp:975-986 | an undefined protocol decodes as the hint's protocol, and as undefined only without a hint |
| CustomOptions.WriteAccessDecoding | smb4k/configdlg/smb4ksambaoptions.cpp:1152-1166 | "read-write" and "read-only" decode to their values whatever their case, and every other text to undefined |
| CustomOptions.WriteAccessRoundTrip | smb4k/configdlg/smb4ksambaoptions.cpp:1054-1080 | an explicit write access survives; an undefined one decodes as the default setting |
| CustomOptions.KerberosDecoding | smb4k/configdlg/smb4ksambaoptions.cpp:1168-1179 | "yes" and "no" decode to their values whatever their case, and every other text to undefined |
| CustomOptions.KerberosRoundTrip | smb4k/configdlg/smb4ksambaoptions.cpp:999-1023 | on a host row an undefined Kerberos choice decodes as the global setting, never as undefined |
| CustomOptions.PortRoundTrip | smb4k/configdlg/smb4ksambaoptions.cpp:1032-1039 | a port in range survives; -1 decodes as the default port |
| CustomOptions.IdFieldOf | smb4k/configdlg/smb4ksambaoptions.cpp:1184 | the id field of "name (digits)" is the digits when the name has no "(" |
| CustomOptions.IdRoundTrip | smb4k/configdlg/smb4ksambaoptions.cpp:1083-1087 | "name (id)" decodes as the id when the name has no "(" and the id is in toInt's range |
| CustomOptions.AccountIdRoundTrip | smb4k/configdlg/smb4ksambaoptions.cpp:1081-1087 | for every uid_t value, the id a KUser or KUserGroup reports reads back as the id when an account has it and the id is at most 2^31 - 1, and as 0 otherwise, because (uid_t)-1 = 4294967295 and every id above 2^31 - 1 are beyond toInt's range |
| CustomOptions.DigitsOnly | smb4k/configdlg/smb4ksambaoptions.cpp:1083-1087 | a non-negative id is written without parentheses |
| CustomOptions.DashIsUndefined | smb4k/configdlg/smb4ksambaoptions.cpp:1043-1079 | the "-" that share rows show for protocol and Kerberos, and host rows for write access, decodes as undefined |
| CustomOptions.RowRoundTrip | smb4k/configdlg/smb4ksambaoptions.cpp:855-1211 | decoding an encoded row gives the entry with exactly the losses of RoundTripped: undefined values replaced by what the row showed, ids only on share rows and 0 for an id with no account or above 2^31 - 1, port -1 as the default port; holds for every uid_t id |
| CustomOptions.RoundTripStable | smb4k/configdlg/smb4ksambaoptions.cpp:855-1211 | the UNC, the ids of a share that have accounts and are at most 2^31 - 1, a set port and an explicit host protocol come back unchanged; any other id comes back as 0, and a host's Kerberos choice never comes back undefined |
| CustomOptions.SortByName | smb4k/configdlg/smb4ksambaoptions.cpp:1113 | sorting the table by the name column gives a permutation of the rows in ascending name order |
| CustomOptions.InsertCustomOptions | smb4k/configdlg/smb4ksambaoptions.cpp:855-1114 | the rows are the entries' encodings, each once, sorted by name |
| CustomOptions.GetCustomOptions | smb4k/configdlg/smb4ksambaoptions.cpp:1117-1211 | one entry per row, in order, each the row's decoding |
| CustomOptions.TableRoundTrip | smb4k/configdlg/smb4ksambaoptions.cpp:855-1211 | filling the table and reading it back gives every entry, each once, with exactly the losses of RoundTripped, in ascending UNC order; holds for every uid_t id |
| Synchronizer.Switches | core/smb4ksynchronizer_p.cpp:172-238 | a switch is in the block exactly when it is one of the block's switches and its setting is on |
| Synchronizer.Slashed | core/smb4ksynchronizer_p.cpp:646-649 | the path ends in "/": unchanged when it already did, otherwise with one "/" appended |
| Synchronizer.Preservation | core/smb4ksynchronizer_p.cpp:168-238 | the preservation block holds only "--archive" and preservation switches |
| Synchronizer.PreservationContract | core/smb4ksynchronizer_p.cpp:168-238 | archive mode gives "--archive" alone; otherwise each preservation switch is there exactly when its setting is on, "--devices" and "--specials" together |
| Synchronizer.TransferListed | core/smb4ksynchronizer_p.cpp:240-468 | each switch from "--relative" to "--compress" is passed exactly when its setting is on |
| Synchronizer.Backups | core/smb4ksynchronizer_p.cpp:474-499 | the backup block is empty exactly without backups, opens with "--backup", and holds the directory and suffix options when they are used |
| Synchronizer.Partials | core/smb4ksynchronizer_p.cpp:564-580 | with keep-partial the block opens with the keep-partial argument, followed by the partial directory when used; otherwise it is empty |
| Synchronizer.Filters | core/smb4ksynchronizer_p.cpp:582-644 | the filter block holds only ordinary and "-F" arguments, and the FF rule passes two "-F" in a row |
| Synchronizer.Front | core/smb4ksynchronizer_p.cpp:166-562 | the arguments before the keep-partial block open with "--progress" and hold no path, partial or filter argument |
| Synchronizer.Back | core/smb4ksynchronizer_p.cpp:582-652 | the arguments after the keep-partial block end with the slashed source and destination, hold only ordinary and "-F" arguments before them, and keep the two "-F" of the FF rule together |
| Synchronizer.ArgumentsFrame | core/smb4ksynchronizer_p.cpp:166-652 | for any keep-partial argument that is not a path, so for the job's own list and the corrected one: the list starts with "--progress" and ends with the slashed source and destination, no other argument is a path, and the keep-partial argument sits where the partial block is, before the paths; in the job's own list that argument is the text " --partial", built as a word, which rsync reads as one more path (Synchronizer.PartialAsWritten) |
| Synchronizer.PreservationInArguments | core/smb4ksynchronizer_p.cpp:166-652 | for the job's own list and the corrected one: "--archive" and the preservation switches in the whole list are exactly those of the preservation block |
| Synchronizer.ArchiveMode | core/smb4ksynchronizer_p.cpp:168-238 | in the job's own list and in the corrected one, "--archive" is passed exactly in archive mode, and then no preservation switch is; otherwise each preservation switch is passed exactly when its setting is on |
| Synchronizer.DevicesAndSpecials | core/smb4ksynchronizer_p.cpp:228-233 | in the job's own list and in the corrected one, outside archive mode, preserving devices and specials passes "--devices" immediately followed by "--specials" |
| Synchronizer.BackupOptions | core/smb4ksynchronizer_p.cpp:474-499 | in the job's own list and in the corrected one, a backup directory or suffix is passed only with backups and only after "--backup"; with backups, those in use are passed |
| Synchronizer.BackupFirst | core/smb4ksynchronizer_p.cpp:474-477 | in the job's own list and in the corrected one, with backups, "--backup" comes right after the transfer switches |
| Synchronizer.FFRule | core/smb4ksynchronizer_p.cpp:600-604 | in the job's own list and in the corrected one, the FF rule passes two "-F" in a row |
| Synchronizer.KeepPartialArguments | core/smb4ksynchronizer_p.cpp:564-567 | the text " --partial" of the job's list and the "--partial" switch of the corrected one are neither paths nor archive, preservation or backup-option arguments, so the list lemmas hold for both lists |
| Synchronizer.PartialAsWritten | core/smb4ksynchronizer_p.cpp:564-567 | as written, keep-partial passes the text " --partial", which does not start with "-", and the "--partial" switch is never passed |
| Synchronizer.PartialSwitchText | core/smb4ksynchronizer_p.cpp:564-567 | the "--partial" switch renders as an option text |
| Synchronizer.PartialCorrected | core/smb4ksynchronizer_p.cpp:564-580 | corrected, "--partial" is passed exactly when partial files are kept, immediately followed by the partial directory when one is used |
| Synchronizer.PartialPassed | core/smb4ksynchronizer_p.cpp:564-567 | corrected, "--partial" is passed exactly when partial files are kept |
| Synchronizer.PartialDirectoryFollows | core/smb4ksynchronizer_p.cpp:568-571 | corrected, the partial directory comes right after "--partial" |
| Synchronizer.SlashedIdempotent | core/smb4ksynchronizer_p.cpp:646-649 | adding the trailing slash twice changes nothing more |
| Synchronizer.LineCounts | core/smb4ksynchronizer_p.cpp:685-753 | only a line that starts with white space and names a progress key carries counts, and both counts are unsigned 64-bit values |
| Synchronizer.ProgressLineCounts | core/smb4ksynchronizer_p.cpp:685-753 | a line starting with white space that holds " to-check=a/b)", " to-chk=a/b)" or " ir-chk=a/b)" and no other "=" is read under that key as b - a files processed out of b, wrapping round by 2^64 when a > b |
| Synchronizer.LastCountsNone | core/smb4ksynchronizer_p.cpp:679-814 | a read with no line carrying counts leaves the counts as they were |
| Synchronizer.LastCountsLast | core/smb4ksynchronizer_p.cpp:679-814 | otherwise the counts are those of the last line that carries some |
| Synchronizer.CountsRoundTrip | core/smb4ksynchronizer_p.cpp:691-703 | "a/b" with a at most b is read as b - a files processed out of b |
| Synchronizer.CountsWrap | core/smb4ksynchronizer_p.cpp:691-703 | when a exceeds b the unsigned subtraction wraps round by 2^64 |
| Synchronizer.CountsText | core/smb4ksynchronizer_p.cpp:693-697 | the two fields of "a/b" parse back as a and b |
| Synchronizer.ErrorStep | core/smb4ksynchronizer_p.cpp:817-832 | a failure (not yet aborted, "rsync error:" in the trimmed text, "(code 23)" not) aborts the process and adds one notification carrying the trimmed text; anything else changes nothing; the counts never change |
| Synchronizer.ErrorStepQuiet | core/smb4ksynchronizer_p.cpp:817-832 | once aborted, no read raises another notification; code 23 never aborts; the same text twice raises one notification |
| Synchronizer.ApplyLines | core/smb4ksynchronizer_p.cpp:683-812 | the loop over the lines of one read computes LastCounts |
| Synchronizer.SyncJob.constructor | core/smb4ksynchronizer_p.cpp:57-62 | no counts, not aborted, no notifications |
| Synchronizer.SyncJob.ReadStandardOutput | core/smb4ksynchronizer_p.cpp:679-814 | the state becomes OutputStep |
| Synchronizer.SyncJob.ReadStandardError | core/smb4ksynchronizer_p.cpp:817-832 | the state becomes ErrorStep |
| Hardware.AnyConnected | core/smb4khardwareinterface.cpp:134-142 | the loop finds the system online exactly when some interface is valid, not a loopback and running |
| Hardware.OnlineStepContract | core/smb4khardwareinterface.cpp:132-151 | afterwards the flag says whether some interface is up; the change signal is emitted exactly when the flag changed and signalling was asked for; nothing else changes |
| Hardware.OnlineStepSettles | core/smb4khardwareinterface.cpp:144-150 | a second check against the same interfaces changes nothing |
| Hardware.InhibitGuards | core/smb4khardwareinterface.cpp:99-130 | a held descriptor is never replaced and a missing one never closed; inhibit changes nothing but the descriptor; with the manager reachable, uninhibit closes the held descriptor and forgets it |
| Hardware.InhibitThenUninhibit | core/smb4khardwareinterface.cpp:99-130 | inhibit with a valid reply followed by uninhibit closes exactly the descriptor obtained and leaves the interface without one |
| Hardware.NoManager | core/smb4khardwareinterface.cpp:105-129 | without the login1 or ConsoleKit manager neither inhibit nor uninhibit has any effect |
| Hardware.DeviceStepsContract | core/smb4khardwareinterface.cpp:203-238 | an added network share is appended and announced, any other added device changes nothing; a removal is announced exactly for a network share or a recorded udi, and drops one occurrence of the udi |
| Hardware.AddedThenRemoved | core/smb4khardwareinterface.cpp:203-238 | a network share that comes and goes leaves the recorded udis as they were, up to order, and is announced once each way |
| Hardware.AddedThenRemovedFresh | core/smb4khardwareinterface.cpp:214-236 | a network share not recorded before leaves the list of udis exactly as it was |
| Hardware.DiffCounts | core/smb4khardwareinterface.cpp:175-186 | the matched mount points together with the unmatched recorded ones make up the recorded list, together with the new ones the current list, and no mount point is both unmatched and new |
| Hardware.DiffEvents | core/smb4khardwareinterface.cpp:188-194 | a recorded mount point is left unmatched exactly when the recorded list is not contained in the current one, and a current one is new exactly when it is not contained in the recorded one |
| Hardware.DiffMountPoints | core/smb4khardwareinterface.cpp:175-186 | the comparison loop computes Diff |
| Hardware.SmbfsMountPoints | core/smb4khardwareinterface.cpp:169-173 | the list holds exactly the mount points of the smbfs entries |
| Hardware.MountStepRecords | core/smb4khardwareinterface.cpp:166-198 | after a poll the recorded mount points are the current smbfs mount points, up to order, and nothing else but the events changes |
| Hardware.MountStepEvents | core/smb4khardwareinterface.cpp:166-198 | a poll announces a removal exactly when a recorded mount point is gone, and an addition exactly when a new one appeared |
| Hardware.MountStepQuiet | core/smb4khardwareinterface.cpp:166-198 | a second poll of an unchanged mount table announces nothing |
| Hardware.NetworkShareUdis | core/smb4khardwareinterface.cpp:59-65 | the list holds exactly the udis of the network-share devices |
| Hardware.CollectNetworkShares | core/smb4khardwareinterface.cpp:59-65 | the device loop of the constructor computes NetworkShareUdis |
| Hardware.InitialContract | core/smb4khardwareinterface.cpp:32-83 | a new interface holds no descriptor, has announced nothing, records the network-share udis and is online exactly when an interface is up |
| Hardware.HardwareInterface.constructor | core/smb4khardwareinterface.cpp:32-83 | the state is Initial |
| Hardware.HardwareInterface.IsOnline | core/smb4khardwareinterface.cpp:94-97 | returns the online flag |
| Hardware.HardwareInterface.CheckOnlineState | core/smb4khardwareinterface.cpp:132-151 | the state becomes OnlineStep |
| Hardware.HardwareInterface.Inhibit | core/smb4khardwareinterface.cpp:99-118 | the state becomes InhibitStep |
| Hardware.HardwareInterface.Uninhibit | core/smb4khardwareinterface.cpp:120-130 | the state becomes UninhibitStep |
| Hardware.HardwareInterface.TimerEvent | core/smb4khardwareinterface.cpp:153-201 | the state becomes TimerStep: the online check with its signal, then the mount-point poll on FreeBSD and NetBSD |
| Hardware.HardwareInterface.PollMounts | core/smb4khardwareinterface.cpp:160-199 | the mount-point poll leaves the state MountStep: a removal and an addition signal as the recorded and current smbfs mount points differ, then the current ones recorded |
| Hardware.HardwareInterface.DeviceAdded | core/smb4khardwareinterface.cpp:203-218 | the state becomes DeviceAddedStep |
| Hardware.HardwareInterface.DeviceRemoved | core/smb4khardwareinterface.cpp:220-238 | the state becomes DeviceRemovedStep |
| SolidInterface.ButtonOf | core/smb4ksolidinterface.cpp:251-273 | a button press is recorded as UnknownButton exactly when Solid reports no known button type |
| SolidInterface.StatusOf | core/smb4ksolidinterface.cpp:323-351 | the status is Unknown exactly for Solid's Unknown or a value outside the enumeration, and Disconnected exactly for Unconnected |
| SolidInterface.ButtonOfInjective | core/smb4ksolidinterface.cpp:251-273 | distinct Solid button types are recorded as distinct buttons |
| SolidInterface.StatusOfInjective | core/smb4ksolidinterface.cpp:323-351 | every status other than Unknown comes from exactly one Solid status |
| SolidInterface.ButtonStepContract | core/smb4ksolidinterface.cpp:249-276 | every press is announced with the button recorded, which is UnknownButton exactly for an unknown type; nothing else changes |
| SolidInterface.NetworkStepContract | core/smb4ksolidinterface.cpp:321-354 | every status change is recorded through the mapping and announced with it; nothing else changes |
| SolidInterface.RemovedStepContract | core/smb4ksolidinterface.cpp:232-246 | a removal is recorded only while a known button is pressed, and then the udi is recorded with that button and nothing else changes |
| SolidInterface.AddedStepWakes | core/smb4ksolidinterface.cpp:209-229 | the wake-up is announced exactly when a known button is pressed and the added udi is the only one recorded, with that button; then the button is forgotten and nothing stays recorded; otherwise the button stays |
| SolidInterface.AddedStepPoisons | core/smb4ksolidinterface.cpp:214 | while a button is pressed, adding a udi that was never removed records it with the default button through the map lookup, and announces nothing |
| SolidInterface.DefaultEntryStays | core/smb4ksolidinterface.cpp:214-228 | an entry recorded with the default button survives every addition, so no wake-up is announced while it is there |
| SolidInterface.SleepAndWake | core/smb4ksolidinterface.cpp:209-276 | pressing a button, losing a device and getting it back announces the press and then the wake-up, and leaves nothing recorded |
| SolidInterface.SuppressionPairs | core/smb4ksolidinterface.cpp:95-104 | the sleep suppression ended is the one begun last |
| SolidInterface.InitialContract | core/smb4ksolidinterface.cpp:68-75 | after construction no button is pressed, nothing is recorded, the cookie is 0, and the status is the current one, announced once by init |
| SolidInterface.Solid.constructor | core/smb4ksolidinterface.cpp:68-75 | the state is Initial |
| SolidInterface.Solid.NetworkStatusOf | core/smb4ksolidinterface.cpp:89-92 | returns the recorded status |
| SolidInterface.Solid.BeginSleepSuppression | core/smb4ksolidinterface.cpp:95-98 | the state becomes BeginSuppressionStep |
| SolidInterface.Solid.EndSleepSuppression | core/smb4ksolidinterface.cpp:101-104 | the state becomes EndSuppressionStep |
| SolidInterface.Solid.DeviceAdded | core/smb4ksolidinterface.cpp:209-229 | the state becomes AddedStep |
| SolidInterface.Solid.DeviceRemoved | core/smb4ksolidinterface.cpp:232-246 | the state becomes RemovedStep |
| SolidInterface.Solid.ButtonPressedSlot | core/smb4ksolidinterface.cpp:249-276 | the state becomes ButtonStep |
| SolidInterface.Solid.NetworkStatusChangedSlot | core/smb4ksolidinterface.cpp:321-354 | the state becomes NetworkStep |
| ConfigDialog.IssuesUpToContract | smb4k/configdlg/smb4kconfigdialog.cpp:286-462 | the first k tests report exactly those of their issues that are raised, each once, in the order of the tests |
| ConfigDialog.IssuesContract | smb4k/configdlg/smb4kconfigdialog.cpp:286-472 | the check reports exactly the raised issues, in test order, and reports none exactly when no issue is raised |
| ConfigDialog.IssuesGuards | smb4k/configdlg/smb4kconfigdialog.cpp:323-462 | without backups neither backup issue is raised; a missing widget raises nothing; a mount prefix that trims to empty is reported |
| ConfigDialog.BackupTestsSkipped | smb4k/configdlg/smb4kconfigdialog.cpp:433-462 | without backups the backup tests add nothing |
| ConfigDialog.CheckSettings | smb4k/configdlg/smb4kconfigdialog.cpp:286-472 | the issues found are Issues, the count is their number, and the check succeeds exactly when the count is 0 |
| ConfigDialog.CheckNetworkAndShares | smb4k/configdlg/smb4kconfigdialog.cpp:292-353 | the network and share tests find the issues of the first five tests, with their count |
| ConfigDialog.CheckSynchronization | smb4k/configdlg/smb4kconfigdialog.cpp:355-429 | the synchronization tests extend the issues to those of the first eleven tests |
| ConfigDialog.CheckBackups | smb4k/configdlg/smb4kconfigdialog.cpp:431-462 | the backup tests, run only with backups, complete the issues |
| ConfigDialog.Test | smb4k/configdlg/smb4kconfigdialog.cpp:297-305 | one test appends its issue exactly when it is raised, counts it and clears the success flag |
| ConfigDialog.ClickGating | smb4k/configdlg/smb4kconfigdialog.cpp:495-539 | other buttons only reach the base dialog; Apply and Ok with an incomplete setting only show the error box with a non-zero count; with complete settings they save the custom options and hand the click to the base dialog last, without the error box |
| ConfigDialog.SlotButtonClicked | smb4k/configdlg/smb4kconfigdialog.cpp:495-539 | running the check as the dialog does gives ClickActions |
| ConfigDialog.WalletEntriesChanged | smb4k/configdlg/smb4kconfigdialog.cpp:765-805 | the wallet loops find a change exactly when some old and some new entry share a UNC, ignoring case, and differ in workgroup, login or password, ignoring case |
| ConfigDialog.AnyPairDiffers | smb4k/configdlg/smb4kconfigdialog.cpp:819-845 | the custom-options loops as written find a change exactly when SOME new entry differs from SOME old entry |
| ConfigDialog.EnableApplyAsWritten | smb4k/configdlg/smb4kconfigdialog.cpp:757-857 | as written, Apply is enabled exactly for a wallet change, or for custom options whose sizes differ or with some differing pair |
| ConfigDialog.ListsDiffer | smb4k/configdlg/smb4kconfigdialog.cpp:814-850 | corrected, the custom options count as changed exactly when the two lists do not hold the same entries equally often, in whatever order |
| ConfigDialog.EnableApply | smb4k/configdlg/smb4kconfigdialog.cpp:757-857 | corrected, Apply is enabled exactly for a wallet change or custom options that are not a reordering of the old ones |
| ConfigDialog.UnchangedListEnablesApply | smb4k/configdlg/smb4kconfigdialog.cpp:819-849 | as written, an unchanged list of two different custom options enables Apply, in the same or the other order, where the corrected test does not |
| ConfigDialog.AsWrittenOverApproximates | smb4k/configdlg/smb4kconfigdialog.cpp:819-849 | the test as written never misses a change, and reports no change only for equal lists of one repeated entry |
| ConfigDialog.WalletBlindSpots | smb4k/configdlg/smb4kconfigdialog.cpp:770-804 | a password changed only in letter case, or a new entry for a UNC that had none, does not enable Apply |

Notes on behaviour the model reproduces as the code has it:

- NetworkItems.HostObject.SetIP: `ipIsValid` clears a temporary and returns its argument, so an invalid address is stored as given, and the IP is marked as checked.
- Scanning.Scanner.ScanDomains: a lookup already running for the same item is not rejected (core/smb4kscanner.cpp:397-708).
- SolidInterface.InitialContract: the constructor's body sets the status to Unknown, but `init()` then calls `slotNetworkStatusChanged` with the current status, so the status after construction is the current one, announced once.
- Hardware.HardwareInterface.TimerEvent: the mount-point poll runs only on FreeBSD and NetBSD builds; the platform is the parameter `pollMounts`.

## Left out

- Processes, threads and shell commands: finding nmblookup, net, grep, awk or rsync, building their command lines and running them are not modelled. Which programs are available is an input, and a worker's completion is an event carrying its result list.
- Signals, slots, override cursors and `QCache` ownership are not modelled as such. Signals are recorded as events, caches are maps, and deleting a cache entry is removing its key.
- Solid, DBus, `QNetworkInterface`, `KMountPoint`, libsmbclient and `QHostAddress`: what they report is a parameter of the operation that reads it.
- The random cache key of the scanner's workers and the sleep-suppression cookie that Solid hands out are parameters.
- Registry function bodies (core/smb4kglobal.cpp) are not part of this model. Identity is taken as a case-insensitive match of names, an empty workgroup matches any workgroup, and a mounted share is identified by its mount path.
- NetworkItems.HostName: `hostName()` is taken to be the upper-cased host part of the URL, because the header that defines it is not part of this model.
- NetworkItems: QUrl tells a null host from an empty one, and may render a URL with an empty but set host as "smb://". The model's URL has no null host: it writes "//" exactly when the user, the password or the host is non-empty or the port is set, so such a URL renders as "smb:".
- NetworkItems: QUrl lowercases the host part of every URL it stores; the model's URL keeps the host in the case it was given. `hostName()` and `unc()` upper-case the host, so what they return is the same either way; the stored URL and `equals()` differ.
- NetworkItems.CopyHostUrl: the copy's URL is the parse of the original's unc(), whose host is upper-case; the model keeps that upper-case host, where the source's copy holds it lower-cased.
- NetworkItems.CopyHostKeepsName: the host name kept is `hostName()`, which agrees with the source; the stored URL host of the copy is upper-case in the model and lower-case in the source.
- NetworkItems.EqualsReflexiveWhenCanonical: its premise, an upper-case host stored in the URL, is a state the source never holds, because QUrl lowercases the host; for the source, NetworkItems.EqualsNotReflexiveForLowerCase is the applicable lemma, so a host whose name has a letter is not equal to itself.
- NetworkItems.HostObject.Named: the host is stored as given, not lower-cased.
- NetworkItems.HostObject.Copy: the copy's URL host is stored upper-case, as unc() gives it, not lower-cased.
- NetworkItems.HostObject.SetHostName: the new host is stored as given, not lower-cased.
- NetworkItems.HostObject.SetUNC: the host parsed from the UNC is stored as given, not lower-cased.
- Text: case folding (`ToUpperChar`, `ToUpper`, `EqualsIgnoreCase`) covers the ASCII letters only, and `IsSpace` only the ASCII white space; QString folds and classifies all of Unicode. Every case-insensitive match built on them is ASCII-only: bookmark UNC, label and group matching, registry identity, wallet comparisons, the protocol, write-access and Kerberos texts of the custom options, and the trimmed-text tests of checkSettings.
- ScanModel.MergeSharesContract: homes shares get their user list from `Smb4KHomesSharesHandler::setHomesUsers` before they are merged (core/smb4kscanner.cpp:1476-1479); that handler is not part of this model, so a homes share is merged with the users it arrived with.
- ScanModel.SharesStepListed: the homes-share user lookup of `setHomesUsers` is left out, as for ScanModel.MergeSharesContract.
- Scanning.MergeSharesIn: the homes-share user lookup of `setHomesUsers` is left out, as for ScanModel.MergeSharesContract.
- Scanning.MergeShareIn: the homes-share user lookup of `setHomesUsers` is left out, as for ScanModel.MergeSharesContract.
- Scanning.Scanner.SlotShares: the homes-share user lookup of `setHomesUsers` is left out, as for ScanModel.MergeSharesContract.
- Scanning.Scanner.SlotWorkgroups: the blocking master-IP lookup is recorded as a request; the master IP copied afterwards is the one held before that lookup, because its result only reaches the registry through the IP scanner's own slot.
- Bookmark persistence: the XML file behind `readBookmarks` and `writeBookmarkList` is a sequence of stored bookmarks. The XML reader and writer and deleting the file are not modelled.
- Bookmark dialogs: `addBookmark`, `addBookmarks(shares, parent)`, `editBookmarks` and the homes-share user prompt are dialog paths and are not modelled.
- Wallet, password dialogs and `core/smb4kprint.cpp` are outside the core modelled here.
- Profiles.ProfileManager.ConfigChanged: the final `settingsChanged` emission is not modelled. At core/smb4kprofilemanager.cpp:256 only `active_changed` is initialised, so `use_changed` and `profiles_changed` are read uninitialised at line 296 and the outcome is undefined. Profiles.ConfigChangedContract says nothing about that emission for the same reason.
- Profiles: `profiles.first()` on an empty list is undefined in Qt; the model reads it as the empty name.
- Synchronizer transfer rates: the speed parsed from rsync's output (core/smb4ksynchronizer_p.cpp:759-792) is a `double` and is not modelled. The progress counts are modelled with their unsigned 64-bit wrap-around.
- Synchronizer paths and jobs: the displayed paths, `mkpath`, the job tracker and the synchronization dialog are not modelled.
- Synchronizer.Arguments: the list is one of structured arguments (a switch, an option with its value, "-F", a literal word, a path), turned into text by `Render`, and it is built one block of settings at a time rather than one append at a time. The proved properties are about which arguments occur, in which order and next to which; the transfer, deletion, checksum and size options are only shown to play no part in them.
- Translated texts (`i18n`) are taken as the identity.
- CustomOptions: the `#ifdef Q_OS_FREEBSD` column layout is not modelled; the model follows the other platforms.
- CustomOptions.InsertCustomOptions: the rows are sorted by the character codes of their names; `sortItems` compares the names with the locale-aware collation of QString, which the model does not have.
- CustomOptions.TableRoundTrip: the entries come back in ascending UNC order by character codes, for the same reason; which entries come back, and how, does not depend on the collation.
- CustomOptions.SortByName: orders the rows by the character codes of their names; `sortItems` uses the locale-aware collation of QString, so rows whose names differ only in ways the collation weighs differently may come out in another order.
- CustomOptions: the widget construction and editing handlers of the custom-options page are GUI code and are not modelled.
- ConfigDialog: `Smb4KSambaOptionsInfo::equals` is taken as equality of values, because its body is not part of this model.
- SolidInterface: the value that QMap's `operator[]` inserts for an unknown udi is taken to be the value-initialised button type, `UnknownButton`.
- SolidInterface: the AC adapter and battery slots only write debug output and are not modelled.

## Findings

| source | as written | input that shows it | evidently intended | confidence | as-written member | corrected member |
|---|---|---|---|---|---|---|
| core/smb4ksynchronizer_p.cpp:564-567 | the keep-partial argument is the text " --partial", with a leading space, so it is passed as one argument that rsync does not take as an option | keep-partial switched on | pass the "--partial" switch, followed by the partial directory when one is used | not executed | Synchronizer.PartialAsWritten | Synchronizer.PartialCorrected |
| smb4k/configdlg/smb4kconfigdialog.cpp:819-849 | for lists of equal size, Apply is enabled as soon as SOME new custom-options entry differs from SOME old entry | old and new list both [A, B] with A different from B, or the new list read back as [B, A]: Apply is enabled although nothing changed | treat the lists as unchanged when they hold the same entries, whatever their order: the new list is read from a table sorted by name, and the earlier, commented-out version of the test (smb4k/configdlg/smb4kconfigdialog.cpp:540-656) matched entries by UNC | not executed | ConfigDialog.UnchangedListEnablesApply | ConfigDialog.EnableApply |
