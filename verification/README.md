# BLE mesh tracking: verified model

The system tracks people and assets indoors. Tags broadcast signed advertisements. Scanners verify,
filter and count them and report over a Bluetooth mesh to a gateway, which forwards the reports to
a server over MQTT, configures and supervises the mesh nodes, and distributes firmware. This
project models the protocols and filters of that firmware in Dafny and proves what they guarantee
over whole runs. Check it with `dafny verify dfyconfig.toml`.

Where the C code updates state in place, the model has a class or an array with the same fields
and loops, and each method's contract ties it to a function on values. Concurrency is modelled by
step machines whose events interleave freely; a module's header says what one step covers.
The theorems are about every run of those functions and machines. Time is an integer clock, and
HMAC-SHA256 (RFC 2104) is any function from key and data to 32 bytes. A foreign call (radio, NVS,
PSA, MQTT, HTTPS, FreeRTOS) is a step that may fail; whether it does is a parameter.

| file | part of the system |
|---|---|
| `Machine.dfy`, `SlotTable.dfy` | C integers; the find-or-claim pattern of every fixed-size table |
| `Kalman.dfy`, `TagTable.dfy`, `TagTracks.dfy`, `TagReports.dfy` | the scanner's RSSI filter, its tag table, what an entry owes to its tag's frames, and the reports |
| `EpochAuth.dfy`, `EpochTracking.dfy` | hourly keys: signing, verification, and following a tag's clock |
| `TagFrame.dfy`, `AdvParser.dfy`, `OtaBeacon.dfy` | the frames on the air, their parsers, and the scanner's beacon key |
| `NodeTable.dfy`, `MacCache.dfy` | the gateway's tables |
| `MeshControl.dfy`, `Handshake.dfy`, `NodeStatus.dfy`, `MeshRuns.dfy` | mesh callbacks, the configuration handshake, ONLINE and OFFLINE messages, and laws of the callbacks over runs |
| `Heartbeat.dfy`, `HeartbeatBounds.dfy`, `Watchdog.dfy` | ping loop and watchdog against the clock; exact bounds; what a watchdog turn does to the tables |
| `OutOfRange.dfy`, `OutOfRangeRuns.dfy` | zone timeouts across MQTT outages |
| `BeaconKey.dfy`, `KeyRotation.dfy` | the OTA-beacon key, its rotation, crashes |
| `SingleFlight.dfy`, `NodeOta.dfy`, `Firmware.dfy`, `GatewayUpdates.dfy`, `NodeUpdates.dfy` | OTA tasks and result reports, versions, and both together |

## Where the code falls short of its claim

Each of these is proved: with the exact condition where there is one, and with a concrete run where it
takes one to fail.

- `docs/03-algorithms.md` (lines 43-44) says that a repeated sequence number is skipped and that one ten or more
  back resets tracking. The code filters and counts a repeated one, and accepts one exactly ten back as if
  it were new. On all others it does what is documented (`TagTable.EffectMatchesDocumentationIff`).
- `docs/03-algorithms.md` (line 48) says that the forward limit stops frames captured long ago. The code restarts
  the tracking from them; only the nine numbers just behind the last leave an entry alone
  (`TagTable.EntryUnchangedIff`).
- The published loss is the true percentage exactly while a hundred times the missed count fits 32 bits
  (`TagTable.LossIsTrueIff`, over runs `TagReports.ReportedLossIsTrueIff`; a run with a wrong one:
  `TagReports.WrongLossIsReported`).
- `docs/02-ble-mesh.md` (line 82) says `config_done` is set only after both acknowledgements. APP_KEY_ADD is
  opcode 0, the idle value of the wait slot, so a late APP_KEY_ADD acknowledgement between the two
  assignments that set the slot passes for the MODEL_APP_BIND one: a run from power-up
  (`Handshake.LateKeyAckPassesForBind`). This is the only exception (`Handshake.ConfiguredOnlyAfterBothAcks`), and
  whatever interleaves it always ends in success (`Handshake.FilledSlotCarries`, `Handshake.CarriedToFinish`).
- An entry that was being configured when the gateway rebooted has no task and stays unconfigured
  (`Handshake.NoZombieButAcrossReboot`).
- The timeout task reads the clock before it takes the lock. A report in between makes it declare
  that tag out of range (`OutOfRangeRuns.ReportAfterReadingIsFalseAlarm`).
- A node that is online again when its OFFLINE is published can be published OFFLINE again at its next
  silence with no ONLINE in between, and only such a node can (`NodeStatus.DoublesOfflineIff`; a run from
  power-up: `NodeStatus.HeardInBetweenDoublesOffline`).
- ONLINE messages that are dropped while MQTT is down can leave two OFFLINE in a row on the server
  (`NodeStatus.ServerAlternatesIff`; a run from power-up: `NodeStatus.DroppedOnlineBreaksAlternation`).
- A live mesh to which nodes only join is reset if the mutex and an acknowledgement together can take 9500 ms
  or more, and exactly then (`HeartbeatBounds.NeverResetIff`). If nodes leave, though not while an open window
  is still empty, the bound is exactly half of that (`HeartbeatBounds.ChangingMeshIff`); if the only configured
  node leaves an empty window, the mesh is reset however quick it was (`HeartbeatBounds.DepartedScannerIsReset`).
- A configuration-time key push between a rotation's import and its flash write, followed by a
  crash, leaves that scanner with a newer key than the gateway (`KeyRotation.CrashLeavesScannerAheadIff`).
- A crash in the push loop leaves the scanners that the loop had not reached on the old key, with
  nothing outstanding, until the next rotation (`KeyRotation.CrashLeavesScannerBehindIff`,
  `KeyRotation.PushLoopCanBeCutOff`, `KeyRotation.NextRotationServes`).
- A boot that cannot read the beacon key in flash makes up another and writes it over the stored one
  (`BeaconKey.BootReplacesStoredKeyIff`).
- `docs/03-algorithms.md` (line 70) derives epoch keys by HKDF and (line 75) says a frame of one epoch is useless
  in the next. The code truncates an HMAC, always also tries the epochs 0 to 200, and its narrow window holds an
  accepted frame's epoch for two more ticks (`EpochAuth.SignedFrameAcceptedIff`, `EpochAuth.NextEpochStillAccepts`,
  `EpochAuth.FrameOfEpoch300`).
- The narrow epoch window loses a tag exactly when an epoch border is missed or an epoch tried earlier
  happens to give the same 16-bit MAC (`EpochTracking.LockFollowsTagIff`).
- `docs/03-algorithms.md` (line 135) compares 14 characters of the versions, the code 32. This makes
  no difference for build stamps (`Firmware.LimitDoesNotMatterForStamps`); in general see
  `Firmware.LimitMattersIff`.
- A fetch compares with the running image, not with the one already flashed, so two fetches before one restart
  can go back (`Firmware.VersionsIncreaseIff`, `Firmware.TwoFetchesCanGoBack`). On the gateway this cannot happen
  (`GatewayUpdates.GatewayVersionsIncrease`).
- The node's `s_ota_triggered` is tested and set in two steps, so two triggers can start two update
  tasks: exactly if one raises the flag when it is already up (`NodeOta.OneTaskAtATimeIff`). They can then flash an
  older version after a newer (`NodeUpdates.OverlapCanGoBack`).
- A node repeats its report of success for every time it fails to clear the mark
  (`NodeOta.FailedClearsRepeatTheReport`).

## Model

| member | source | states |
|---|---|---|
| SlotTable.FullIffAllUsed | apps/gateway/components/bmt_node_table/bmt_node_table.c:62-80 | the first-free search fails exactly when the table holds as many distinct keys as it has slots |
| SlotTable.ClaimAllIsFirstDistinct | apps/gateway/components/bmt_mac_cache/bmt_mac_cache.c:16-36 | find-or-claim over any history keeps exactly the first n distinct keys |
| SlotTable.ClaimAllUnique | apps/scanner/components/bmt_auth/bmt_auth.c:154-172 | and holds no key twice |
| Kalman.Update | apps/scanner/components/bmt_tag_table/bmt_tag_table.c:43-61 | the field-by-field update computes one step of the filter |
| Kalman.StepKeepsBand | apps/scanner/components/bmt_tag_table/bmt_tag_table.c:27-61 | p stays in [0.27, 1.366], r in [1, 20], and every gain in [37/2037, 733/1233]: never frozen, never unfiltered |
| Kalman.EstimateInHull | apps/scanner/components/bmt_tag_table/bmt_tag_table.c:33-61 | over every run the estimate lies between the least and greatest sample since initialisation |
| Kalman.NoiseEstimateBounded | apps/scanner/components/bmt_tag_table/bmt_tag_table.c:45-50 | the noise estimate stays in [0, 65025] for int8 samples |
| Kalman.Converges | apps/scanner/components/bmt_tag_table/bmt_tag_table.c:43-61 | under constant input the estimate never overshoots and its error shrinks by 2000/2037 a step |
| Kalman.EnvelopeIsGeometric | apps/scanner/components/bmt_tag_table/bmt_tag_table.c:43-61 | that bound is (2000/2037)^n times the first error |
| Kalman.NoiseIsFadedAverage | apps/scanner/components/bmt_tag_table/bmt_tag_table.c:45-55 | over every run the noise estimate is the average of the squared innovations with weights that fade by a tenth, and the noise each gain is computed with is that estimate, this sample included, cut off to [1, 20] |
| Kalman.GainIsBest | apps/scanner/components/bmt_tag_table/bmt_tag_table.c:57-60 | of all gains the one computed leaves the least error variance, and that is the new p |
| Kalman.FurtherSampleGetsLessGain | apps/scanner/components/bmt_tag_table/bmt_tag_table.c:47-58 | of two samples the one further from the estimate never gets more gain, and gets less exactly while the cut-off leaves their noise estimates apart |
| Kalman.OutlierIsDamped | apps/scanner/components/bmt_tag_table/bmt_tag_table.c:33-61 | a tag heard at -60 and then at -80 dBm stays at -61 |
| TagTable.EffectMatchesDocumentationIff | apps/scanner/components/bmt_tag_table/bmt_tag_table.c:132-178 | on counters and filter, the code has the documented effect exactly on the sequence numbers that are neither repeated nor exactly ten back; and what it does on those two |
| TagTable.UpdateHasEffect | apps/scanner/components/bmt_tag_table/bmt_tag_table.c:125-178 | an update changes the counters and moves, keeps or restarts the filter by that effect |
| TagTable.ClassifyTrueCounter | apps/scanner/components/bmt_tag_table/bmt_tag_table.c:142-171 | while the true counter is 9 back to 30 ahead, the 8-bit rule recovers the true distance and the `missed < 200` guard drops nothing |
| TagTable.AdvancesIncrease | apps/scanner/components/bmt_tag_table/bmt_tag_table.c:173-178 | the frames that advance a tag are distinct frames of the history in increasing order |
| TagTable.SequenceConservation | apps/scanner/components/bmt_tag_table/bmt_tag_table.c:125-178 | through any number of 8-bit wraps, received = advances + repeats, and missed = the true counters in between that never advanced the tag, modulo 2^32 |
| TagTable.LossIsTrueIff | apps/scanner/components/bmt_mesh/bmt_mesh.c:151-152 | while received and missed together fit 32 bits, the published loss is the floored true percentage if and only if 100 times the missed count fits 32 bits |
| TagTable.LossIsFloored | apps/scanner/components/bmt_mesh/bmt_mesh.c:151-152 | that percentage is the floor of 100 * missed / total, at most 100 |
| TagTable.LossWraps | apps/scanner/components/bmt_mesh/bmt_mesh.c:151-152 | past that it is not: after 5,368,711 frames of which every ninth is heard it reads 0 percent instead of 88 |
| TagTable.EntryUnchangedIff | apps/scanner/components/bmt_tag_table/bmt_tag_table.c:132-163 | a frame leaves its tag's counters and filter as they were if and only if its number is one to nine behind; a jump restarts the tracking from it |
| TagTable.Scanner.Find | apps/scanner/components/bmt_tag_table/bmt_tag_table.c:76-82 | the first active slot of the tag, or -1 |
| TagTable.Scanner.Add | apps/scanner/components/bmt_tag_table/bmt_tag_table.c:84-116 | fills the first inactive slot and its filter and nothing else, or reports a full table |
| TagTable.Scanner.Update | apps/scanner/components/bmt_tag_table/bmt_tag_table.c:125-178 | the in-place update of one entry and its filter: battery, verdict on the sequence, counters, filter, time |
| TagTable.Scanner.SetEpoch | apps/scanner/components/bmt_tag_table/bmt_tag_table.c:118-123 | sets the epoch of an active slot and ignores any other index |
| TagTable.Scanner.CheckTimeouts | apps/scanner/components/bmt_tag_table/bmt_tag_table.c:191-205 | deactivates exactly the entries silent for more than 5 s and zeroes their filters |
| TagTable.Scanner.OnSighting | apps/scanner/components/bmt_scan/bmt_scan.c:182-192 | a decoded frame updates its tag's entry or claims one |
| TagTable.TableRefinesMap | apps/scanner/components/bmt_tag_table/bmt_tag_table.c:76-205 | for every history the table is a map of at most 20 tags: active ids unique, each entry and filter what its own samples made it, inactive filters zero |
| TagTable.PublishedRssiInRange | apps/scanner/components/bmt_mesh/bmt_mesh.c:157-164 | in every run an active filter is in its band, `rssi_filtered` is its estimate, and the int8 cast never wraps |
| TagTracks.EntryIsMadeOfFrames | apps/scanner/components/bmt_tag_table/bmt_tag_table.c:84-178 | after any history each field of an entry is that of the right one of the tag's own frames (first, last, or last accepted), it has counted the accepted frames and the numbers skipped, and its filter has taken in their RSSI since tracking last restarted |
| TagTracks.SweptIffSilent | apps/scanner/components/bmt_tag_table/bmt_tag_table.c:191-205 | a sweep keeps exactly the tags whose last accepted frame is at most 5 s old |
| TagReports.PublishTags | apps/scanner/components/bmt_mesh/bmt_mesh.c:139-177 | sends one report for each active slot in slot order, none unprovisioned, whatever fails |
| TagReports.ReportsAreTheTracks | apps/scanner/components/bmt_mesh/bmt_mesh.c:139-177 | after any history the reports cover exactly the tracked tags, each once, under the scanner's number, with battery, truncated estimate of that tag's samples and loss |
| TagReports.ReportsInSlotOrder | apps/scanner/components/bmt_mesh/bmt_mesh.c:139-177 | the reports come in the order of the slots |
| TagReports.EntryCountsItsFrames | apps/scanner/components/bmt_tag_table/bmt_tag_table.c:84-178 | over every history the counters of an entry are those that the tag's own true counters make since the entry was added |
| TagReports.ReportedLossIsTrueIff | apps/scanner/components/bmt_mesh/bmt_mesh.c:151-164 | end to end: the loss reported for a tracked tag is the floored percentage of its true counters that never advanced it, if and only if 100 times their number fits 32 bits |
| TagReports.WrongLossIsReported | apps/scanner/components/bmt_mesh/bmt_mesh.c:151-164 | a whole run of sightings and sweeps without a timeout whose report says 0 percent where 88 were lost |
| EpochAuth.BothTagsAgree | apps/beacon_nrf52840/src/bmt_auth.c:34-40 | the millisecond and the microsecond tag are in the same epoch at every instant |
| EpochAuth.Tag.EnsureEpochKey | apps/tag/components/bmt_auth/bmt_auth.c:37-72 | a key present is the key of the cached epoch, and with PSA working that of the asked epoch |
| EpochAuth.Tag.Sign | apps/tag/components/bmt_auth/bmt_auth.c:99-114 | with PSA working the MAC is under the epoch of its instant; otherwise it is under some epoch's key or 0 |
| EpochAuth.Scanner.FindOrAlloc | apps/scanner/components/bmt_auth/bmt_auth.c:154-172 | the tag's slot, else the first free slot claimed with a zero lock, else none |
| EpochAuth.Scanner.SearchNarrow | apps/scanner/components/bmt_auth/bmt_auth.c:189-206 | the fast path finds the first match of the search order, or none of the three epochs of the window matches |
| EpochAuth.Scanner.SearchWide | apps/scanner/components/bmt_auth/bmt_auth.c:208-222 | the resync finds the first match of the search order if there is one beyond the window |
| EpochAuth.Scanner.VerifyTag | apps/scanner/components/bmt_auth/bmt_auth.c:184-223 | the two loops find the first matching candidate of narrow window then 0..200 and lock exactly that |
| EpochAuth.Scanner.GetLockedEpoch | apps/scanner/components/bmt_auth/bmt_auth.c:225-231 | returns the lock of the tag or -1 |
| EpochAuth.AcceptedIffSomeEpochMatches | apps/scanner/components/bmt_auth/bmt_auth.c:184-223 | a frame is accepted if and only if some epoch of (narrow window if locked) or 0..200 matches |
| EpochAuth.AcceptedInOrder | apps/scanner/components/bmt_auth/bmt_auth.c:189-222 | of several epochs that match it is accepted under the one before the predicted epoch, then that, then the one after, then the least of 0..200 |
| EpochAuth.KeyDeterminesEpoch | apps/scanner/components/bmt_auth/bmt_auth.c:132-146 | an epoch's key is made from both bytes of its number, low byte first; unless such HMACs collide, different epochs have different keys |
| EpochAuth.MacIsTwoBytes | apps/scanner/components/bmt_auth/bmt_auth.c:110-123 | MACs agree exactly if the first two bytes of the HMACs do |
| EpochAuth.SignedFrameAcceptedIffTried | apps/scanner/components/bmt_auth/bmt_auth.c:184-223 | so if keys and MACs do not collide, a signed frame is accepted if and only if its own epoch is at most 200 or in the narrow window, and then under that epoch |
| EpochAuth.OldTagUnlockedIsRejected | apps/scanner/components/bmt_auth/bmt_auth.c:208-222 | a tag in an epoch above 200 of which no lock is held is then not heard |
| EpochAuth.FailingPsaAcceptsZeroMacs | apps/scanner/components/bmt_auth/bmt_auth.c:110-152 | with PSA failing a frame is accepted if and only if its MAC is 0 and for some epoch tried it is the MAC computation that fails |
| EpochAuth.RebootedTagIsAccepted | apps/scanner/components/bmt_auth/bmt_auth.c:208-220 | a tag within 200 epochs of its boot is accepted whatever was locked and even with no slot left |
| EpochAuth.SignedFrameAcceptedIff | apps/scanner/components/bmt_auth/bmt_auth.c:184-223 | a frame signed at some uptime is accepted, whenever it is heard, if and only if its epoch is at most 200 or in the narrow window of that moment, or another epoch tried gives the same MAC |
| EpochAuth.WindowHoldsLockedEpochIff | apps/scanner/components/bmt_auth/bmt_auth.c:189-196 | the window holds the locked epoch itself exactly for the first two ticks after the lock, and around every 2^16th |
| EpochAuth.HeardAgainIsAccepted | apps/scanner/components/bmt_auth/bmt_auth.c:184-223 | a frame that was accepted is accepted again, byte for byte, at any time in the next two ticks |
| EpochAuth.NextEpochStillAccepts | apps/scanner/components/bmt_auth/bmt_auth.c:184-223 | so a genuine frame is accepted a tick later, when its tag is in the next epoch |
| EpochAuth.FrameOfEpoch300 | apps/scanner/components/bmt_auth/bmt_auth.c:184-223 | such a frame exists, of an epoch outside 0..200 |
| EpochAuth.RejectionKeepsLocks | apps/scanner/components/bmt_auth/bmt_auth.c:184-223 | a rejected frame changes no used slot and no lock |
| EpochAuth.OtherTagKeepsSlot | apps/scanner/components/bmt_auth/bmt_auth.c:184-223 | a frame of one tag leaves what is known of another |
| EpochAuth.SlotsAreClaimed | apps/scanner/components/bmt_auth/bmt_auth.c:154-172 | over every history slots hold distinct tags and are never freed |
| EpochAuth.GetterReturnsLastAccepted | apps/scanner/components/bmt_auth/bmt_auth.c:154-231 | the getter returns the last accepted epoch of each of the first 20 tags seen and -1 for all others |
| EpochTracking.InWindowIffNoBorderMissed | apps/scanner/components/bmt_auth/bmt_auth.c:189-196 | the next frame's epoch lies in the three-epoch window, through the 16-bit wrap, if and only if no epoch border is missed |
| EpochTracking.EqualDelayFollowsAnyGap | apps/scanner/components/bmt_auth/bmt_auth.c:189-203 | with equal or growing delay any gap between frames is followed |
| EpochTracking.ShortGapIsFollowed | apps/scanner/components/bmt_auth/bmt_auth.c:189-203 | with delays that differ by at most D, every gap shorter than T - D is followed |
| EpochTracking.WindowCanMiss | apps/scanner/components/bmt_auth/bmt_auth.c:189-206 | outside these conditions two concrete frames are not |
| EpochTracking.LockFollowsTagIff | apps/scanner/components/bmt_auth/bmt_auth.c:184-206 | over every run of a tag among frames of others and rejected frames that bear its id, the lock always describes its last accepted frame and the wide scan is never entered, if and only if no border is missed and no epoch of the window tried before the frame's own gives its MAC |
| EpochTracking.FrameLocksIff | apps/scanner/components/bmt_auth/bmt_auth.c:184-223 | a signed frame of a tag with a slot locks its own epoch if and only if that epoch is tried and none tried before it gives the same MAC; within 200 epochs of a boot it is tried |
| TagFrame.DecodeEncode | apps/tag/components/bmt_beacon/bmt_beacon.c:61-76 | decoding the packed payload returns the fields encoded |
| TagFrame.EncodeDecode | apps/scanner/components/bmt_scan/bmt_scan.c:73-74 | every 24 bytes are the encoding of what they decode to |
| TagFrame.FrameByIndex | apps/tag/components/bmt_beacon/bmt_beacon.c:25-76 | where the 31 bytes hold header, UUID, battery, number, power, sequence number and MAC |
| TagFrame.MacCoversTheRest | apps/tag/components/bmt_beacon/bmt_beacon.c:72-73 | the signed part determines every field but the MAC, sequence number and power included |
| TagFrame.MacOnTheAir | apps/tag/components/bmt_beacon/bmt_beacon.c:72-75 | a frame is signed if and only if its last two bytes are the second and first byte of the HMAC over the 22 bytes before them |
| TagFrame.Beacon.BuildAdvData | apps/tag/components/bmt_beacon/bmt_beacon.c:25-76 | the 31 bytes are the frame of a payload whose MAC is over all but itself, under the key of the instant when PSA works, under an earlier key or 0 when it does not |
| TagFrame.Beacon.SeqTimer | apps/tag/components/bmt_beacon/bmt_beacon.c:102-109 | the next frame carries the next sequence number modulo 256 |
| AdvParser.ParseTagPayload | apps/scanner/components/bmt_scan/bmt_scan.c:51-107 | for every byte string the index walk ends, reads in bounds and yields the first acceptable structure of the declarative split, with the locks that follow |
| AdvParser.JudgeByIndex | apps/scanner/components/bmt_scan/bmt_scan.c:62-101 | a structure is a tag's or a phone's exactly by the bytes at these positions |
| AdvParser.ShortYieldsNothing | apps/scanner/components/bmt_scan/bmt_scan.c:53-54 | the length guard loses nothing: fewer than 26 bytes hold nothing acceptable |
| AdvParser.FieldsOfJoin | apps/scanner/components/bmt_scan/bmt_scan.c:55-60 | splitting undoes joining, whatever bytes follow |
| AdvParser.FrameIsJoin | apps/tag/components/bmt_beacon/bmt_beacon.c:25-60 | the tag's frame is two well-formed structures |
| AdvParser.TagFrameRoundTrip | apps/scanner/components/bmt_scan/bmt_scan.c:51-107 | a tag's frame behind any structures none of which is acceptable, and before any bytes, yields the fields encoded, if its epoch is among those tried |
| AdvParser.TagFieldIff | apps/scanner/components/bmt_scan/bmt_scan.c:62-78 | a tag's structure is exactly one of at least 27 bytes that starts with the company and the system's four bytes |
| AdvParser.PhoneFieldIff | apps/scanner/components/bmt_scan/bmt_scan.c:92-97 | a phone's is exactly an iBeacon of major 1 or 2 |
| AdvParser.PhoneRoundTrip | apps/scanner/components/bmt_scan/bmt_scan.c:92-104 | such an iBeacon behind any structures none of which is acceptable yields its minor with the top bit set, -59 dBm and nothing else, and touches no lock |
| AdvParser.TakenIsPhoneOrAuthentic | apps/scanner/components/bmt_scan/bmt_scan.c:62-104 | whatever is taken is a phone, or the fields of a tag's structure whose MAC matches under some epoch |
| OtaBeacon.Sender.BeaconSend | apps/gateway/components/bmt_ota/bmt_ota.c:82-105 | the static buffer becomes the 14-byte beacon with the MAC over its five bytes |
| OtaBeacon.Listener.OnAdvert | apps/scanner/components/bmt_scan/bmt_scan.c:125-169 | for every byte string the loop ends, reads in bounds, and acts on the first beacon of the declarative split or on none |
| OtaBeacon.Listener.ActOn | apps/scanner/components/bmt_scan/bmt_scan.c:141-163 | a beacon triggers exactly if its MAC is right and it is not cooling, and is then what is remembered |
| OtaBeacon.ClippedExtendsFields | apps/scanner/components/bmt_scan/bmt_scan.c:129-168 | this loop's split differs from the strict one by at most one last, overlong structure |
| OtaBeacon.StrictBeaconIsFound | apps/scanner/components/bmt_scan/bmt_scan.c:129-168 | so a beacon a strict parser would find is found, at the same place |
| OtaBeacon.OverlongBeaconIsFound | apps/scanner/components/bmt_scan/bmt_scan.c:129-168 | and a structure whose length runs past the end is taken too |
| OtaBeacon.BeaconRoundTrip | apps/gateway/components/bmt_ota/bmt_ota.c:82-105 | the gateway's beacon behind any structures without one and before any bytes is taken exactly when both sides' MACs over the same five bytes agree, so always under one key |
| OtaBeacon.IsBeaconIff | apps/scanner/components/bmt_scan/bmt_scan.c:133-140 | what counts as a beacon is exactly the gateway's structure for scanners or for all |
| OtaBeacon.OtherTargetIsPassedOver | apps/scanner/components/bmt_scan/bmt_scan.c:133-168 | a beacon to others is passed over: what counts is what follows it |
| OtaBeacon.KeylessScannerTakesZeroMac | apps/scanner/components/bmt_scan/bmt_scan.c:141-152 | a scanner without a key takes exactly the beacons whose MAC is zero |
| OtaBeacon.MemoryServesActed | apps/scanner/components/bmt_scan/bmt_scan.c:153-163 | over every run from power-up an idle scanner acts on a beacon it can verify if and only if the last one it acted on had another MAC or is at least 20 s old |
| OtaBeacon.OneUpdatePerBroadcast | apps/scanner/components/bmt_scan/bmt_scan.c:153-163 | copies of one beacon within 20 s trigger at most one update, and exactly one if the scanner was not cooling and heard one while idle |
| OtaBeacon.FirstBeaconAfterBoot | apps/scanner/components/bmt_scan/bmt_scan.c:23-25 | after power-up the cooldown suppresses nothing |
| OtaBeacon.KeyStore.Init | apps/scanner/components/bmt_auth/bmt_auth.c:75-108 | a boot takes the stored key, else the built-in one |
| OtaBeacon.KeyStore.SetOtaBeaconKey | apps/scanner/components/bmt_auth/bmt_auth.c:238-262 | a 16-byte key that imports replaces the key in RAM and NVS; any other changes nothing |
| OtaBeacon.ScannerHoldsLastKey | apps/scanner/components/bmt_auth/bmt_auth.c:75-108 | over any reboots and pushes a scanner holds the last key pushed to it, before the first the built-in one |
| OtaBeacon.BootHoldsLastStored | apps/scanner/components/bmt_auth/bmt_auth.c:75-108 | whatever failed before, a boot that can use a key holds the last one that was imported and written, and the built-in one if there is none or it cannot be read |
| NodeTable.Table.FindAddr | apps/gateway/components/bmt_node_table/bmt_node_table.c:32-38 | the first used entry of the address, or -1 |
| NodeTable.Table.Add | apps/gateway/components/bmt_node_table/bmt_node_table.c:48-81 | refreshes the entry of a known address, else fills the first free one, else changes nothing |
| NodeTable.RebootRestoresLastSave | apps/gateway/components/bmt_node_table/bmt_node_table.c:82-147 | after any history a reboot brings back exactly the nodes of the last save that worked, those it manages as offline |
| NodeTable.Table.Load | apps/gateway/components/bmt_node_table/bmt_node_table.c:109-147 | restores the blob with every relay and scanner offline |
| NodeTable.Table.Clear | apps/gateway/components/bmt_node_table/bmt_node_table.c:149-160 | empties RAM, and the blob if erasing works |
| NodeTable.AddIsMapUpdate | apps/gateway/components/bmt_node_table/bmt_node_table.c:48-81 | adding is a map update at one address that only a full table of other addresses refuses |
| NodeTable.DeleteIsMapRemove | apps/gateway/components/bmt_mesh/bmt_mesh.c:114-121 | zeroing an entry removes that address and no other |
| NodeTable.AddressesStayUnique | apps/gateway/components/bmt_node_table/bmt_node_table.c:48-160 | over every history with reboots, in RAM and in the blob, no address is used twice |
| MacCache.Cache.Store | apps/gateway/components/bmt_mac_cache/bmt_mac_cache.c:16-36 | updates the UUID's entry, else claims the first free one |
| MacCache.Cache.Get | apps/gateway/components/bmt_mac_cache/bmt_mac_cache.c:38-49 | the MAC of the UUID's entry, if any |
| MacCache.CacheHoldsLatest | apps/gateway/components/bmt_mac_cache/bmt_mac_cache.c:16-49 | after any history the cache returns the latest MAC of each of the first 16 distinct UUIDs and nothing else |
| MeshControl.Gateway.CfgClientCb | apps/gateway/components/bmt_mesh/bmt_mesh.c:381-435 | the callback's effect on table, wait slot bit, counter and messages |
| MeshControl.Gateway.TagStatusCb | apps/gateway/components/bmt_mesh/bmt_mesh.c:458-488 | a long enough report counts, and refreshes its scanner when due |
| MeshControl.Gateway.PingMark | apps/gateway/components/bmt_mesh/bmt_mesh.c:559-570 | an online entry silent for more than 60 s is marked offline |
| MeshControl.Gateway.AbortCleanup | apps/gateway/components/bmt_mesh/bmt_mesh.c:110-122 | deletes the entry of the address, if any |
| MeshControl.Gateway.BeaconCb | apps/gateway/components/bmt_mesh/bmt_mesh.c:299-335 | deletes a configured entry whose node beacons again; leaves one still being configured and does not provision it |
| MeshControl.Gateway.ProvisionedCb | apps/gateway/components/bmt_mesh/bmt_mesh.c:338-375 | adds the node unconfigured and launches a task for a relay or scanner |
| MeshControl.Gateway.MarkConfigDone | apps/gateway/components/bmt_mesh/bmt_mesh.c:236-241 | sets `config_done` of the address, if it has an entry |
| Handshake.SlotSetOnlyUnderMutex | apps/gateway/components/bmt_mesh/bmt_mesh.c:67-84 | in every interleaving address and opcode of the wait slot are non-zero only while a task inside its wait holds the mutex, and then are that task's |
| Handshake.EarlyAckIsLost | apps/gateway/components/bmt_mesh/bmt_mesh.c:71-77 | an acknowledgement before the slot is fully set does not set the bit |
| Handshake.HolderNeverBlocks | apps/gateway/components/bmt_mesh/bmt_mesh.c:185-258 | the mutex holder can always take its next step |
| Handshake.AtMostThreeAttempts | apps/gateway/components/bmt_mesh/bmt_mesh.c:86-108 | in every run a configuration task sends each of its two messages at most three times and takes at most 46 steps |
| Handshake.GivesUpOnlyAfterThree | apps/gateway/components/bmt_mesh/bmt_mesh.c:86-108 | and in every run it deletes its node only after three sends of APP_KEY_ADD and none of MODEL_APP_BIND, or three of MODEL_APP_BIND |
| Handshake.TasksEnd | apps/gateway/components/bmt_mesh/bmt_mesh.c:185-258 | each of its steps lowers a rank, and the last one gives the mutex back |
| Handshake.ConfiguredOnlyAfterBothAcks | apps/gateway/components/bmt_mesh/bmt_mesh.c:185-258 | in every interleaving an entry turns configured only after error-free APP_KEY_ADD and then MODEL_APP_BIND acknowledgements from that address inside the task's own waits, or after an acknowledgement hit the half-set slot |
| Handshake.LateKeyAckPassesForBind | apps/gateway/components/bmt_mesh/bmt_mesh.c:71-80 | that exception is real: a run from power-up in which every acknowledgement is of APP_KEY_ADD turns an entry configured |
| Handshake.FilledSlotCarries | apps/gateway/components/bmt_mesh/bmt_mesh.c:71-78 | in a MODEL_APP_BIND wait the slot is filled exactly by the awaited acknowledgement or by such a hit, and then the task is bound for success |
| Handshake.CarriedToFinish | apps/gateway/components/bmt_mesh/bmt_mesh.c:74-108 | whatever interleaves, a task so bound reaches its success branch with its last own step of the wait |
| Handshake.CleanupPreservesOwned | apps/gateway/components/bmt_mesh/bmt_mesh.c:110-122 | a failed task leaves its address without an entry |
| Handshake.FinishPreservesOwned | apps/gateway/components/bmt_mesh/bmt_mesh.c:236-241 | a successful one leaves it configured |
| Handshake.NoZombieButAcrossReboot | apps/gateway/components/bmt_mesh/bmt_mesh.c:185-258 | in every interleaving an unconfigured entry has a live task, if and only if no reboot interrupted its configuration |
| Handshake.RunKeepsInvariants | apps/gateway/components/bmt_mesh/bmt_mesh.c:67-258 | all of this is kept by every step of every run |
| NodeStatus.OfflineNeverTwice | apps/gateway/components/bmt_mesh/bmt_mesh.c:424-570 | in every run, across reboots, in which no node is back online when its OFFLINE is published, between two OFFLINE messages for an address there is an ONLINE one |
| NodeStatus.DoublesOfflineIff | apps/gateway/components/bmt_mesh/bmt_mesh.c:560-570 | the condition is exact: with an OFFLINE to be published, an otherwise orderly run can follow in which one repeats, if and only if the node is back online |
| NodeStatus.SecondOffline | apps/gateway/components/bmt_mesh/bmt_mesh.c:560-570 | whatever the time, one answered ping and a minute of silence later |
| NodeStatus.HeardInBetweenDoublesOffline | apps/gateway/components/bmt_mesh/bmt_mesh.c:475-570 | such a run from power-up |
| NodeStatus.SentAlternatesIff | apps/gateway/components/bmt_thingsboard/bmt_thingsboard.c:115-135 | on the server every OFFLINE follows an ONLINE if and only if no OFFLINE was sent while every ONLINE since the previous one was dropped |
| NodeStatus.ServerAlternatesIff | apps/gateway/components/bmt_thingsboard/bmt_thingsboard.c:115-135 | the same over every run from power-up |
| NodeStatus.ServerAlternates | apps/gateway/components/bmt_thingsboard/bmt_thingsboard.c:115-135 | and it does alternate in every orderly run in which no ONLINE is dropped |
| NodeStatus.DroppedOnlineBreaksAlternation | apps/gateway/components/bmt_thingsboard/bmt_thingsboard.c:117-118 | an orderly run from power-up, with MQTT down for one message, after which the server has heard OFFLINE twice in a row |
| MeshRuns.ReceptionsAreCounted | apps/gateway/components/bmt_mesh/bmt_mesh.c:414-467 | over every run between reboots the counter the watchdog reads counts exactly the tag reports that are long enough and the error-free ping answers of configured relays and scanners, modulo 2^32 |
| MeshRuns.TimedCounterIsReceptions | apps/gateway/components/bmt_mesh/bmt_mesh.c:414-575 | in every run of the timed model below in which no node joins or leaves its counter is that one |
| MeshRuns.PublishesAnnouncements | apps/gateway/components/bmt_mesh/bmt_mesh.c:381-488 | over every run the messages published are exactly those due, in order: with the MODEL_APP_BIND acknowledgement one in each of the node's roles, with the first ping answered while offline, with a scanner's report after 30 s, and the OFFLINE decided on |
| MeshRuns.EachSilenceIsPublishedOnce | apps/gateway/components/bmt_mesh/bmt_mesh.c:559-570 | between reboots the OFFLINE messages are exactly one for each time an online node is found silent for more than 60 s, in order, the last one perhaps still to come |
| MeshRuns.RebootStartsAnew | apps/gateway/components/bmt_mesh/bmt_mesh.c:49-570 | a reboot starts the counter at zero and drops an OFFLINE still to come |
| MeshRuns.EachDeviceHasOneEntry | apps/gateway/components/bmt_mesh/bmt_mesh.c:296-375 | in every run in which the stack provisions only what it was handed, however often devices come back, no UUID has two entries and each is relay or scanner as its UUID says |
| Heartbeat.FindConfiguredScanner | apps/gateway/components/bmt_watchdog/bmt_watchdog.c:28-37 | true if and only if some used entry is a configured scanner |
| Heartbeat.ResetCycle | apps/gateway/components/bmt_watchdog/bmt_watchdog.c:74-91 | five attempts, skipped while an OTA runs; the count is zero exactly if none was sent |
| Heartbeat.CountsAreClose | apps/gateway/components/bmt_mesh/bmt_mesh.c:531-575 | in every run without departures the counter never stands still for longer than 20500 ms and one turn once pings go out and a node is configured |
| Heartbeat.LiveMeshNeverReset | apps/gateway/components/bmt_mesh/bmt_mesh.c:531-575 | if mutex wait and acknowledgement together stay below 9500 ms, no run of any table in which nodes only join ever enters the reset cycle |
| HeartbeatBounds.SlowTurnIsReset | apps/gateway/components/bmt_watchdog/bmt_watchdog.c:43-75 | from 9500 ms on a run enters it, with the watchdog started right after the ping task |
| HeartbeatBounds.NeverResetIff | apps/gateway/components/bmt_watchdog/bmt_watchdog.c:43-75 | so the bound is exact |
| HeartbeatBounds.ChangingMeshNeverReset | apps/gateway/components/bmt_mesh/bmt_mesh.c:531-575 | with nodes leaving as well, though not while an open window is empty, half that bound suffices in every run |
| HeartbeatBounds.LeaveBeforeWindowIsReset | apps/gateway/components/bmt_watchdog/bmt_watchdog.c:56-75 | and is needed: from 4750 ms on a run enters the reset cycle |
| HeartbeatBounds.ChangingMeshIff | apps/gateway/components/bmt_watchdog/bmt_watchdog.c:43-75 | so it is exact too |
| HeartbeatBounds.DepartedScannerIsReset | apps/gateway/components/bmt_watchdog/bmt_watchdog.c:45-75 | when the only configured node leaves right after a window has opened, a run enters it however quick the acknowledgements were |
| Heartbeat.WipeIsEarned | apps/gateway/components/bmt_watchdog/bmt_watchdog.c:45-115 | the mesh is wiped only after a window with a configured scanner and an unchanged count and five attempts of which at least one was sent, none of them during an OTA |
| Heartbeat.CycleWipesIffSent | apps/gateway/components/bmt_watchdog/bmt_watchdog.c:74-115 | in every run a reset cycle ends in the wipe if and only if one of its five attempts was sent, and otherwise in watching on |
| Heartbeat.RelaysAloneAreNotWatched | apps/gateway/components/bmt_watchdog/bmt_watchdog.c:28-54 | while no scanner is configured no window is ever opened, whatever relays there are |
| Heartbeat.NothingSentNothingLost | apps/gateway/components/bmt_watchdog/bmt_watchdog.c:74-99 | over any run of reset cycles in which all attempts fail or are skipped the mesh is not wiped and every entry stays as it was unless its node joins or leaves by itself |
| Watchdog.Dog.Turn | apps/gateway/components/bmt_watchdog/bmt_watchdog.c:47-115 | of the node table and the zone table: both are as they were unless a window with a configured scanner counted nothing and a RESET_CMD went out with no OTA running; then both are empty |
| OutOfRange.Zones.Find | apps/gateway/components/bmt_zone/bmt_zone.c:49-55 | the tag's active track, or none |
| OutOfRange.Zones.GetOrAdd | apps/gateway/components/bmt_zone/bmt_zone.c:57-78 | the tag's track with its battery refreshed, else the first free one, zone unknown, else none |
| OutOfRange.TrackingIsMapUpdate | apps/gateway/components/bmt_zone/bmt_zone.c:57-78 | it is a map update at one tag that only a full table of other tags refuses |
| OutOfRange.Zones.ResetAll | apps/gateway/components/bmt_zone/bmt_zone.c:37-40 | leaves no tag tracked |
| OutOfRange.Zones.OnReport | apps/gateway/components/bmt_thingsboard/bmt_thingsboard.c:142-174 | the locked part of a report |
| OutOfRange.Zones.TimeoutTurn | apps/gateway/components/bmt_thingsboard/bmt_thingsboard.c:237-257 | one pass of the timeout task with the clock value it read |
| OutOfRange.Zones.ReplayPending | apps/gateway/components/bmt_thingsboard/bmt_thingsboard.c:73-90 | a reconnect publishes pending updates and keeps those that fail |
| OutOfRange.OpKeepsCoherent | apps/gateway/components/bmt_thingsboard/bmt_thingsboard.c:142-257 | zone unknown exactly while no scanner entry is valid, and pending only then |
| OutOfRange.OpBalances | apps/gateway/components/bmt_thingsboard/bmt_thingsboard.c:83-87 | each operation settles what it takes on |
| OutOfRange.EntryAfter | apps/gateway/components/bmt_thingsboard/bmt_thingsboard.c:142-257 | after any operations a tag's zone is the scanner that first heard it since it was last out of range, the valid scanners are those that did, the times those of the first and last such report, the battery the last one reported, and an update is pending exactly if its publication failed since |
| OutOfRangeRuns.EntryFollowsItsOps | apps/gateway/components/bmt_thingsboard/bmt_thingsboard.c:73-257 | in every run the entry of a tag is what its own operations make it |
| OutOfRangeRuns.NewTagStartsEntry | apps/gateway/components/bmt_zone/bmt_zone.c:62-77 | and a new tag starts one |
| OutOfRangeRuns.ReconnectPublishesPending | apps/gateway/components/bmt_thingsboard/bmt_thingsboard.c:73-90 | after any run a reconnect publishes of each tag exactly what is pending if publishing works, and keeps what fails |
| OutOfRangeRuns.NothingPendingAfterReconnect | apps/gateway/components/bmt_thingsboard/bmt_thingsboard.c:83-87 | so with publishing working nothing is pending afterwards |
| OutOfRangeRuns.TurnPublishesOrKeeps | apps/gateway/components/bmt_thingsboard/bmt_thingsboard.c:237-256 | after any run a timeout turn declares exactly the located tags silent for more than 10 s, and publishes each or leaves it pending |
| OutOfRangeRuns.ReportSupersedesPending | apps/gateway/components/bmt_thingsboard/bmt_thingsboard.c:142-157 | any report of a tag supersedes what is pending for it and nothing else |
| OutOfRangeRuns.TimeoutsAreConserved | apps/gateway/components/bmt_thingsboard/bmt_thingsboard.c:231-257 | per tag and in every interleaving: declared = published + superseded + pending |
| OutOfRangeRuns.DeclaredIff | apps/gateway/components/bmt_thingsboard/bmt_thingsboard.c:244-247 | a located tag is declared exactly if silent for more than 10 s at the reading or heard after it |
| OutOfRangeRuns.AlarmGenuineIffNotHeardSince | apps/gateway/components/bmt_thingsboard/bmt_thingsboard.c:237-256 | in every run a declared timeout is genuine if and only if no report of the tag came after the clock reading |
| OutOfRangeRuns.QuietReadingsRaiseNoFalseAlarm | apps/gateway/components/bmt_thingsboard/bmt_thingsboard.c:237-256 | with no report between reading and lock there is never a false alarm |
| OutOfRangeRuns.ReportAfterReadingIsFalseAlarm | apps/gateway/components/bmt_thingsboard/bmt_thingsboard.c:237-244 | a report there always causes one |
| BeaconKey.KeyStore.Init | apps/gateway/components/bmt_ota/bmt_ota_key.c:78-113 | a boot loads the stored key, or stores and imports a random one |
| BeaconKey.KeyStore.RotateAndPush | apps/gateway/components/bmt_ota/bmt_ota_key.c:118-146 | a failed import changes nothing and pushes nothing; otherwise every configured scanner is sent the new key once |
| BeaconKey.EachScannerIsPushedOnce | apps/gateway/components/bmt_ota/bmt_ota_key.c:134-144 | a pass pushes to an address if and only if a configured scanner has it, and with unique addresses once |
| BeaconKey.BootReplacesStoredKeyIff | apps/gateway/components/bmt_ota/bmt_ota_key.c:78-113 | a boot replaces a stored key in flash if and only if it cannot read it and can write |
| BeaconKey.FirstBootUsesRandomKey | apps/gateway/components/bmt_ota/bmt_ota_key.c:108-113 | a first boot uses the key it makes up even if it cannot be stored |
| KeyRotation.NoScannerLeftBehind | apps/gateway/components/bmt_ota/bmt_ota_key.c:118-153 | in every interleaving of rotations with provisioning, configuration and deletion of nodes, once nothing is outstanding each configured scanner whose last push worked was last sent the newest key |
| KeyRotation.ServedAtFirst | apps/gateway/components/bmt_ota/bmt_ota_key.c:125-135 | its premise holds at a first boot and right after every import |
| KeyRotation.CrashLeavesScannerAheadIff | apps/gateway/components/bmt_ota/bmt_ota_key.c:125-130 | after a crash anywhere a scanner is ahead of the gateway if and only if its last push fell between import and flash write of a rotation cut off there |
| KeyRotation.CrashLeavesScannerBehindIff | apps/gateway/components/bmt_ota/bmt_ota_key.c:118-153 | and behind it if and only if its last successful push carried neither the key in flash nor one of such a gap |
| KeyRotation.BehindOnlyIfOwed | apps/gateway/components/bmt_ota/bmt_ota_key.c:134-153 | without a crash such a scanner is one whose push failed or is still to come |
| KeyRotation.PushLoopCanBeCutOff | apps/gateway/components/bmt_ota/bmt_ota_key.c:134-144 | a crash in the push loop does leave one behind with nothing outstanding |
| KeyRotation.NextRotationServes | apps/gateway/components/bmt_ota/bmt_ota_key.c:118-146 | whatever crashes came before, the next rotation that imports makes up for it |
| KeyRotation.CrashKeepsKeyIff | apps/gateway/components/bmt_ota/bmt_ota_key.c:34-113 | import, flash write and boot together: a crash keeps the gateway's key exactly outside the gap between import and flash write |
| KeyRotation.GatewayNeverBehind | apps/gateway/components/bmt_ota/bmt_ota_key.c:51-145 | without pushes inside that gap the gateway is never behind, whenever it crashes |
| KeyRotation.GapCanBeHit | apps/gateway/components/bmt_mesh/bmt_mesh.c:236-247 | and such a push can happen |
| KeyRotation.FailedImportsChangeNoKey | apps/gateway/components/bmt_ota/bmt_ota_key.c:51-129 | over any run in which imports fail, RAM and flash keep their key and no scanner is sent any other |
| KeyRotation.OnlyScannersAreSentKeys | apps/gateway/components/bmt_ota/bmt_ota_key.c:134-153 | in every run, crashes included, no key is ever sent or tried to an address that never was that of a configured scanner |
| SingleFlight.AtMostOneFlight | apps/gateway/components/bmt_ota/bmt_ota.c:31-79 | in every interleaving at most one start or task is alive, `s_running` is true exactly while one is, and each distribution runs on the arguments its own starter wrote |
| SingleFlight.StartAcceptedIffNobodyFlies | apps/gateway/components/bmt_ota/bmt_ota.c:216-223 | a start is refused exactly while one is alive |
| SingleFlight.EndingFreesTheFlag | apps/gateway/components/bmt_ota/bmt_ota.c:45-62 | every exit that does not reboot clears the flag |
| SingleFlight.NoFetchBeforeRestart | apps/gateway/components/bmt_ota/bmt_ota.c:50-55 | between a successful flash and its restart no other update is under way or can begin |
| SingleFlight.FlightEnds | apps/gateway/components/bmt_ota/bmt_ota.c:142-214 | in every run from power-up a start and its task end after at most seven own steps between reboots, so the flag is not held for good |
| SingleFlight.FlightCanAdvance | apps/gateway/components/bmt_ota/bmt_ota.c:142-233 | and until then one is always possible |
| SingleFlight.StartIsARun | apps/gateway/components/bmt_ota/bmt_ota.c:216-233 | the starter's code is a run of the machine |
| SingleFlight.UpdateIsARun | apps/gateway/components/bmt_ota/bmt_ota.c:33-63 | so is the self-update task |
| SingleFlight.DistributionIsARun | apps/gateway/components/bmt_ota/bmt_ota.c:142-214 | and the distribution |
| SingleFlight.Gateway.SelfUpdateStart | apps/gateway/components/bmt_ota/bmt_ota.c:65-79 | refused, started, or failed with the flag freed |
| SingleFlight.Gateway.StartDistribute | apps/gateway/components/bmt_ota/bmt_ota.c:216-233 | the same, with the shared arguments written only after winning the flag |
| SingleFlight.Gateway.SelfUpdateTask | apps/gateway/components/bmt_ota/bmt_ota.c:33-63 | reboots on success and frees the flag otherwise |
| SingleFlight.Gateway.DistributeTask | apps/gateway/components/bmt_ota/bmt_ota.c:142-214 | five triggers to each configured node of its own starter's sort and none to others; none at all if the beacon serves the scanners or no node matches |
| SingleFlight.TriggersFor | apps/gateway/components/bmt_ota/bmt_ota.c:184-209 | an address is triggered if and only if some entry of the wanted sort has it |
| SingleFlight.FiveTriggersEach | apps/gateway/components/bmt_ota/bmt_ota.c:184-209 | with unique addresses each address of a configured node of the wanted sort gets five triggers, and any other none |
| Firmware.Transitive | components/bmt_https_ota/bmt_https_ota.c:67 | "newer" by strncmp is transitive |
| Firmware.EqualIffSameText | components/bmt_https_ota/bmt_https_ota.c:67 | fields compare equal exactly when they hold the same text |
| Firmware.OrderIsNumeric | components/bmt_https_ota/bmt_https_ota.c:67 | on digit strings of any one width strncmp orders as the numbers do |
| Firmware.LimitDoesNotMatterForStamps | components/bmt_https_ota/bmt_https_ota.c:67 | for build stamps limits 14 and 32 decide alike |
| Firmware.LimitMattersIff | components/bmt_https_ota/bmt_https_ota.c:67 | in general they differ exactly if the first 14 characters agree and the rest says newer |
| Firmware.LimitMattersForLongerVersions | components/bmt_https_ota/bmt_https_ota.c:67 | such versions exist |
| Firmware.ProjectVersion | apps/gateway/CMakeLists.txt:19-41 | the build's version is the latest of its source files' times |
| Firmware.LaterBuildIsNewer | apps/gateway/CMakeLists.txt:12-18 | of two builds the one with the later edit is newer for the fetch, and only that one |
| Firmware.Device.FetchAndFlash | components/bmt_https_ota/bmt_https_ota.c:25-94 | succeeds if and only if a different, strictly newer image was received in full and finished; otherwise the boot image stays; a refused image is NOT_FOUND; each handle is closed exactly once |
| Firmware.VersionsIncreaseIff | components/bmt_https_ota/bmt_https_ota.c:51-93 | along any run the versions flashed increase if and only if each successful fetch brings an image newer than the one that would boot |
| Firmware.VersionsIncrease | components/bmt_https_ota/bmt_https_ota.c:58-93 | along every run with a restart after each success, across reboots, they strictly increase |
| GatewayUpdates.GatewayVersionsIncrease | apps/gateway/components/bmt_ota/bmt_ota.c:33-79 | in every interleaving of the gateway's OTA tasks, across reboots and resets, a restart follows each success before the next fetch, so they strictly increase |
| Firmware.FixedImageFlashedOnce | apps/gateway/components/bmt_ota/bmt_ota.c:248-258 | a server that offers one version is followed at most once, however often the check runs |
| Firmware.TwoFetchesCanGoBack | components/bmt_https_ota/bmt_https_ota.c:51-67 | two fetches before one restart can flash an older version after a newer |
| NodeOta.StepBalances | components/bmt_ota/bmt_ota.c:61-92 | every step keeps: reported + being reported + noted + not yet noted + lost = flashed + failed clears |
| NodeOta.ReportsAtMostFlashes | components/bmt_ota/bmt_ota.c:199-259 | for any crash points and any number of update tasks a node reports at most as many successes as it had plus clears that failed; never more than it had while clearing works, exactly as many if none was lost, and in general more exactly if the failed clears outnumber what is pending or lost |
| NodeOta.FailedClearsRepeatTheReport | components/bmt_ota/bmt_ota.c:84-91 | sharp: k failed clears can repeat one report k times |
| NodeOta.FailuresAreReportedOnce | components/bmt_ota/bmt_ota.c:199-230 | over every run each failed update is reported as one, once, and finding nothing to do is not |
| NodeOta.OneTaskAtATimeIff | components/bmt_ota/bmt_ota.c:232-247 | over every run no two update tasks are ever live at once if and only if each caller that raises the flag finds it down at that moment; then it is up exactly while one is live |
| NodeOta.OverlappingTriggersStartTwo | components/bmt_ota/bmt_ota.c:239-245 | overlapping triggers start two |
| NodeUpdates.NodeVersionsIncrease | components/bmt_ota/bmt_ota.c:179-247 | under that condition, with crashes anywhere, the versions a node flashes strictly increase |
| NodeUpdates.OverlapCanGoBack | components/bmt_ota/bmt_ota.c:239-245 | without it two overlapping triggers can flash an older version after a newer |
| NodeOta.Node.MarkPending | components/bmt_ota/bmt_ota.c:61-76 | the mark is set only if every NVS call works |
| NodeOta.Node.CheckAndClearPending | components/bmt_ota/bmt_ota.c:78-92 | tells whether the mark was set and clears it, or keeps it if the write fails |
| NodeOta.Node.Trigger | components/bmt_ota/bmt_ota.c:232-247 | starts a task unless one was started |
| NodeOta.Node.OtaWifiTask | components/bmt_ota/bmt_ota.c:179-230 | a success is noted before the restart and not reported; a failure is reported; nothing to do is neither |
| NodeOta.Node.ReportPendingTask | components/bmt_ota/bmt_ota.c:249-259 | reports success exactly if the mark was read |
| NodeOta.WholeTasksBalance | components/bmt_ota/bmt_ota.c:179-259 | both whole tasks keep the balance |

## Left out

- ESP-IDF, BLE Mesh, NimBLE, FreeRTOS, PSA, WiFi, MQTT, HTTPS and NVS internals: foreign code. Each call is one step with a given outcome; an NVS write and its commit are one step, and a write that reports failure changed nothing.
- Float rounding in the filter: the model is over exact reals.
- The distance estimate and its decimetre conversion: transcendental floating point.
- Logging, JSON, topics, device names, UART menus, radio phase timing and beacon intervals: presentation and I/O.
- The battery curve, the factory-reset tick counter, scan-list deduplication and MQTT queue counters: they would only add easy members.
- The RSSI and timestamp the gateway keeps per scanner: only printed.
- AdvParser.ParseTagPayload: one value of the clock, and one outcome of PSA for each epoch, serve a whole advertisement.
- Handshake.ConfiguredOnlyAfterBothAcks: each callback is one step, addresses are not zero, and the stack never hands out an address still in the table; a callback split between its comparison and its setting of the bit is not modelled, because the claim fails then.
- Handshake.NoZombieButAcrossReboot: a failed creation of the configuration task aborts the firmware and ends the run.
- Heartbeat.LiveMeshNeverReset: computation takes no time, delays are exact, every ping sent is acknowledged, and no window counts 2^32 messages; nodes that leave are treated in `HeartbeatBounds.ChangingMeshIff`.
- KeyRotation.NoScannerLeftBehind: sends that succeed are taken to arrive in order.
- Firmware.Device.FetchAndFlash: the library is taken to report "in progress" a finite number of times; a transfer that never ends is not modelled.
- Firmware.VersionsIncreaseIff: rollback by the bootloader is not modelled; it is disabled in the configuration.
- SingleFlight.Gateway.DistributeTask: the waits between triggers are not modelled; the table is given as it is read at each pass.
- TagReports.PublishTags: the distance field of a report is not modelled, and the table is taken not to change while the reports go out.
- Wipes from the UART and the factory reset are followed by a reboot and end a run.
- The manual provisioning mode, the ThingsBoard rule chains, TLS, secure boot and the build scripts other than the version string.
