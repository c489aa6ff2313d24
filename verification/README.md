# Vampire cache model

Vampire is a caching proxy for package registries (Cargo, npm, PyPI and Git). Its core keeps
artifacts and metadata in one directory, lets one request per key fetch from upstream while the
others wait for it, publishes files by rename, evicts the oldest when the directory is too large,
and rewrites the links inside registry metadata so that clients come back to the proxy.

This project models that core in Dafny and proves what it promises. `dafny verify dfyconfig.toml`
checks all of it.

| file | models |
|---|---|
| `Protocol.dfy` | `CacheStore`, `Inflight`, the fetch drivers, their drop guards, publication pins, the janitor and the eviction scan as one interleaving state machine; the disk is names to inodes and inodes to bytes |
| `ProtocolInvariants.dfy`, `ProtocolPreservation.dfy` | the invariant of that machine and its preservation, step by step |
| `ProtocolTheorems.dfy` | what holds in every run |
| `ProtocolPublications.dfy` | exactly when a publication is still under its name, and what a waiter then finds |
| `ProtocolRequests.dfy` | what each request is answered with, traced back to the lookup, the flight and the bytes it came from |
| `ProtocolRace.dfy`, `ProtocolWitnesses.dfy` | three concrete runs that show where a natural property stops being true |
| `Eviction.dfy` | one eviction scan with the pins fixed, as the loop it is |
| `Packed.dfy`, `Headers.dfy`, `StoredEntries.dfy`, `Decimal.dfy` | the packed file format, stored and sent headers, writers, readers and responses |
| `Reservation.dfy` | the metadata memory budget and the body reader that draws on it |
| `Names.dfy` | the file name grammar, the directory claim and start-up cleanup |
| `Identity.dfy` | what a cache key and an npm package path stand for |
| `Revalidation.dfy` | cached metadata against an upstream that changes, as a state machine |
| `CanonicalPath.dfy`, `CanonicalForm.dfy` | the percent-encoding checker and normaliser, and what canonical means in bytes |
| `LimitedOutput.dfy`, `PypiHtml.dfy`, `HtmlMatches.dfy` | the bounded buffer, the PyPI page rewriter and the matches of its pattern |
| `PypiLinks.dfy`, `LinkRoutes.dfy` | the link rewriters, the routes they lead to and the size bound |
| `NpmJson.dfy`, `NpmWriter.dfy`, `NpmReading.dfy` | the npm document rewriter: what it means, the loops that write it, and what a reader finds in the text |

## How the model is built

Tasks that run concurrently become steps of a state machine. A run is any sequence of enabled
steps: any number of keys, requests, leaders, cancellations, evictions and restarts, in any order.
A step is what happens between two points where another task can run: the pin check and the removal
of a scan are two steps, and so are the first look at the in-flight map, the look at the disk and
the second look. Loops that update variables are Dafny loops proved against a function that says
what they compute; the properties are then proved about that function.

What the code takes from elsewhere is a parameter with a stated hypothesis: the hash is
collision-free; decoding metadata inverts encoding it; the URL parser shows no quote that is not
written, writes at most three bytes for one (percent-encoding), and changing scheme, host and port
leaves the path alone; a JSON reader reads a quoted string as that string and members in braces as
an object of them; the upstream answers 304 to the validators of an earlier 200 only while it still
has that body (sections 13.1.2, 13.1.3 and 15.4.5 of RFC 9110); `notify_waiters` wakes every handle
taken before it; a rename is atomic.

## Results that need a condition

* **A waiter that was told `Cached` can still find nothing.** A publication is *exposed* when another
  leader of its key pins while its pin is alive, which takes its slot in the pin map, or when it is
  renamed into place while a scan is between its pin check and its removal of that name
  (`ProtocolTheorems.Exposes`). A publication that is not exposed stays under its name and is what its
  waiters load, in all runs; in particular, nothing is exposed on a key whose commits all find no
  completed file (`ProtocolPublications.FreeCommitsServeWaiters`). An exposed one may be lost: `ProtocolRace.WaiterCanMiss` loses it to a
  second leader, which is possible because the second look at the in-flight map does not look at the
  disk again (src/cache.rs:209-215); `ProtocolWitnesses.LoneLeaderCanMiss` loses it to a scan, with one
  leader and no slot taken. `ProtocolPublications.WaiterOpensExactly` is the exact statement: a waiter
  opens its leader's publication if and only if no rename and no removal took the name since, and
  every step that did found the publication exposed.
  The runs use a configuration that start-up accepts and entries with the metadata the store writes.
* **A quiet store can be over its bound.** `ProtocolWitnesses.QuietCanExceed` is the run: a metadata
  leader dropped between its rename and its scan. `ProtocolTheorems.LeavesDebt` names the steps that
  can do this, and `QuietSinceScanFits` shows that only those since the last scan began matter.
* **A cache key is exact** for URLs without NUL. `Identity.NulCollides` shows why the condition is
  there; a serialised URL never contains NUL.
* **The normaliser never lengthens a path**, whatever its bytes: `char::from` widens a byte above
  127, but such a path is then rejected.

## Model

| member | source | states |
|---|---|---|
| `ProtocolInvariants.InitInv` | src/cache.rs:129-167 | a freshly opened store, with an accepted configuration and any entries and leftovers on disk, satisfies the invariant |
| `ProtocolPreservation.StepKeeps` | src/cache.rs:195-306 | every step of every task keeps the whole invariant: flights, permits, disk, temps, pins, queue, lock, scan and size bound |
| `ProtocolTheorems.RunInv` | src/cache.rs:128-306 | the invariant holds in every state of every run |
| `ProtocolTheorems.RunEvolves` | src/cache.rs:446-487 | across any stretch of a run a flight keeps its key, outcome and publication, never regains an agent, and published inodes keep their bytes |
| `ProtocolTheorems.SingleFlight` | src/cache.rs:195-237 | in every state at most one agent per key is active, and it is the one registered under that key |
| `ProtocolTheorems.LeadersWithinCapacity` | src/cache.rs:297-302 | available, held and otherwise used permits always add up to the capacity; every leader holds one, so leaders never outnumber it |
| `ProtocolTheorems.RemovalIsExact` | src/cache.rs:304-306 | removal by key takes out the remover's own registration, already resolved and notified, and nothing else |
| `ProtocolTheorems.NeverBack` | src/proxy.rs:446-447 | a flight whose agent has returned is never registered again |
| `ProtocolTheorems.RemovedOnce` | src/proxy.rs:84-151 | each registration is removed at most once in a run, whether by its leader or by a cleanup |
| `ProtocolTheorems.UnresolvedHasAgent` | src/proxy.rs:218-258 | an unresolved flight is registered and has its one agent; one that left the map is resolved and notified |
| `ProtocolTheorems.NoLostWakeup` | src/cache.rs:454-464 | a blocked waiter can wake exactly when the notification is out, has checked once, and finds the outcome at its second check; while nothing is out, an agent is still at work |
| `ProtocolTheorems.Agreement` | src/cache.rs:466-486 | any two waiters of one flight, at any two times, receive the same outcome even when success and failure race |
| `ProtocolTheorems.CancelledIsCleanedUp` | src/proxy.rs:98-118 | at any time after a leader is dropped, its cleanup has taken at most four steps and is the registered agent with its next step enabled, or the flight is resolved, notified and out of the map |
| `ProtocolTheorems.CleanupProgress` | src/proxy.rs:107-116 | over any stretch of a run, every step a cleanup takes is one less to take, whatever happens in between |
| `ProtocolTheorems.CleanupAdvances` | src/proxy.rs:141-149 | the next step of a cleanup is enabled in every reachable state and brings it nearer the end, where the flight is resolved and notified |
| `ProtocolTheorems.OthersLeaveCleanup` | src/proxy.rs:133-151 | no step of anyone else moves a cleanup |
| `ProtocolTheorems.WaiterLoadsPublication` | src/proxy.rs:389-399 | whoever received `Cached` from a flight that is not exposed opens exactly the entry that flight published, with that body and metadata |
| `ProtocolPublications.WaiterOpensExactly` | src/proxy.rs:389-399 | whoever received `Cached` opens its leader's publication if and only if no step took the name since the rename, and a step that did found the publication exposed with its pin alive |
| `ProtocolPublications.MissingNeedsExposure` | src/proxy.rs:392-397 | "artifact missing after inflight completion" implies that, after the rename of this very flight, a step took its name while its pin was alive and found it exposed |
| `ProtocolTheorems.ExposureHasCause` | src/cache.rs:278-295 | a flight is exposed if and only if an earlier step took its slot while its pin was alive, or it was renamed into place under a pending removal |
| `ProtocolPublications.PublishedWhileUntaken` | src/cache.rs:293-294 | a publication is under its name if and only if, since its rename, no other rename and no scan took the name |
| `ProtocolPublications.LostOnlyWhenExposed` | src/cache.rs:664-667 | while a pin is alive, its publication loses its name only to a step that finds it exposed |
| `ProtocolPublications.FreeCommitsExposeNothing` | src/cache.rs:292-293 | if every leader of a key that pins finds no completed file under it, no publication of the key is exposed |
| `ProtocolPublications.FreeCommitsStayOnDisk` | src/cache.rs:278-295 | then each publication of the key stays on disk, pinned and not being removed, while any clone of its pin lives |
| `ProtocolPublications.FreeCommitsServeWaiters` | src/proxy.rs:389-399 | and no waiter on the key ever misses: each that received `Cached` opens what its leader published |
| `ProtocolRace.WaiterCanMiss` | src/cache.rs:202-215 | there is a run in which a second leader makes a waiter that received `Cached` find no entry |
| `ProtocolWitnesses.LoneLeaderCanMiss` | src/cache.rs:664-667 | there is a run in which a scan does so, although the key never had another leader |
| `ProtocolTheorems.PinnedStaysOnDisk` | src/cache.rs:326-341 | while any clone of its pin lives, a publication that is not exposed is under its name, is seen as pinned and is not being removed |
| `ProtocolTheorems.ScanSeesLiveState` | src/cache.rs:643-676 | what a scan listed and has not processed is on disk, and the pin map holds exactly the live pins |
| `ProtocolTheorems.PublishedFrozen` | src/cache.rs:246-295 | a published inode keeps its bytes through every rename, eviction and later leader |
| `ProtocolTheorems.OpenedEntryIsStable` | src/cache.rs:42-61 | an opened entry reads the same metadata, length and body for as long as its handle lives |
| `ProtocolRequests.PhaseHasCause` | src/cache.rs:195-237 | wherever a request is in the lookup, it got there by a step of its own that saw what the lookup demands under its own key: nothing in flight, its readable file, nothing readable, or the flight registered for that key |
| `ProtocolRequests.HitIsOwnEntry` | src/cache.rs:202-204 | a disk hit opens what was under the request's own key when it looked, found there at start-up or published by a flight of that key with its body and metadata; the file still has those bytes |
| `ProtocolRequests.SecondCheckMissed` | src/cache.rs:196-212 | an artifact request goes upstream only after it saw nothing in flight and then nothing readable under its own key |
| `ProtocolRequests.NameHasSource` | src/cache.rs:246-295 | every name points at what start-up found under it or at what a flight of that very key published |
| `ProtocolRequests.OutcomeHasCause` | src/proxy.rs:428-445 | every reply and every failure of a flight was produced by a step of that flight's own agent |
| `ProtocolRequests.WaiterGetsOwnReply` | src/proxy.rs:389-407 | a waiter's response is the reply the leader of its own key's flight got from upstream |
| `ProtocolRequests.BodyIsReceived` | src/proxy.rs:481-495 | the body a flight publishes is the chunks it received, in order and since its temp file was last created, or its metadata body; its metadata is what was written last |
| `ProtocolTheorems.WaiterKeepsPublication` | src/proxy.rs:704-712 | what a waiter of a flight that is not exposed opened is its leader's publication, then and ever after |
| `ProtocolTheorems.PartHasOneOwner` | src/proxy.rs:425-447 | `<key>.part` is created, written, renamed or removed only by the agent registered for the key |
| `ProtocolTheorems.RequestNeverLost` | src/cache.rs:412-427 | after an unpin that owned its slot has sent its request, it is queued, received, or a scan has started since |
| `ProtocolTheorems.QuiescentFits` | src/cache.rs:649-676 | with nothing pinned, queued, scanning or being written, completed entries fit the bound unless the last scan was prevented from working |
| `ProtocolTheorems.QuietSinceScanFits` | src/cache.rs:271-274 | if no step since the last scan began fails a scan or a removal, or drops a metadata write before the end of its scan, a quiet state fits |
| `ProtocolTheorems.EveryQuietStateFits` | src/cache.rs:164-166 | the same before the first scan, in a store that starts within its bound |
| `ProtocolWitnesses.QuietCanExceed` | src/cache.rs:272-274 | there is a run from within the bound to a quiet state over it |
| `Eviction.TotalAppend` | src/cache.rs:655-655 | the total counts the size of every entry listed, once |
| `Eviction.EvictToBound` | src/cache.rs:649-676 | what is evicted is a prefix of the evictable entries in modification order; evicted and kept make up the listing; the running total is the size of what is kept; what is kept fits or nothing evictable is left; no shorter prefix fits; nothing evicted is newer than an evictable survivor |
| `Eviction.RemoveOldest` | src/cache.rs:660-674 | the loop: entries dealt with in order, the saturating subtraction never saturates, and it stops only at the bound or the end |
| `Eviction.SortIsStable` | src/cache.rs:659-659 | sorting keeps the listing order of equal times |
| `Eviction.SortSorts` | src/cache.rs:659-659 | the result of sorting is in modification order |
| `Eviction.ListingOrderIsIrrelevant` | src/cache.rs:654-660 | with distinct times, what a scan works through does not depend on the directory order |
| `Eviction.ScanIsDetermined` | src/cache.rs:660-674 | two outcomes that meet the contract of a scan evict the same entries |
| `Packed.UnpackInvertsPack` | src/cache.rs:748-762 | reading back a packed file yields its body and metadata |
| `Packed.AcceptsExactlyPacked` | src/cache.rs:715-734 | the reader accepts exactly the byte strings a writer can write, and splits them as they were joined |
| `Packed.PackLayout` | src/cache.rs:265-268 | the file is the body, then the metadata, then four bytes of its length |
| `Packed.BigEndian` | src/cache.rs:268-268 | the length is written most significant byte first |
| `Headers.MetaFromUpstream` | src/proxy.rs:639-674 | the header loop computes the stored metadata |
| `Headers.StoredFrom` | src/proxy.rs:644-655 | a pair is stored exactly when upstream sent it as text, it is not hop-by-hop, and it is not a length that will be replaced |
| `Headers.StoredAppend` | src/proxy.rs:644-655 | stored headers keep the upstream order |
| `Headers.ApplyHeaders` | src/proxy.rs:733-743 | under each name the client is sent the last acceptable pair, and nothing else |
| `Headers.NoHopHeaderSent` | src/proxy.rs:591-604 | no hop-by-hop header reaches a client, in streamed or buffered responses |
| `Headers.LowerExact` | src/proxy.rs:591-604 | header names compare without the case of ASCII letters, and of nothing else |
| `Headers.UpstreamIsSized` | src/proxy.rs:656-661 | stored headers hold one content length, the number of bytes counted |
| `Headers.BytesAreSized` | src/proxy.rs:676-698 | so do the headers of a buffered or rewritten body, whatever was stripped or added |
| `Headers.SizedIsSent` | src/proxy.rs:733-743 | a sized response is sent with exactly that content length |
| `Headers.NoUpstreamValidatorSent` | src/proxy.rs:683-686 | a rewritten body is never sent with the upstream's validators, which stay available for revalidation |
| `Headers.TypeAlwaysNamed` | src/proxy.rs:687-696 | a buffered response always names a content type, the default one exactly when none was given, and loses no other header |
| `Headers.BufferedKeeps` | src/proxy.rs:676-698 | a buffered response keeps every upstream header that is text, end-to-end and not a length; only the validators of a rewritten body are taken out |
| `Headers.StoredValidators` | src/proxy.rs:662-673 | the stored etag and date are the first values under their names, if those are text, also where they are not sent |
| `Decimal.ValueOfShow` | src/proxy.rs:657-660 | a rendered length reads back as the same number |
| `StoredEntries.ReadFooter` | src/cache.rs:748-762 | the seeks and reads yield what the format says, and never hit the end of the file |
| `StoredEntries.Load` | src/cache.rs:177-193 | a missing or unreadable file is a miss, never an error; anything else is an entry of that file |
| `StoredEntries.StoredEntry.ReadBody` | src/cache.rs:48-56 | from any handle position, exactly the body |
| `StoredEntries.StoredEntry.FileResponse` | src/proxy.rs:704-712 | the streamed bytes are the body and stop at the footer; status and headers are the stored ones |
| `StoredEntries.StoreMetadata` | src/cache.rs:246-276 | the metadata writer writes the packed form, or refuses oversized metadata |
| `StoredEntries.FetchArtifact` | src/proxy.rs:476-506 | the chunk loop and commit write the concatenated chunks with metadata that counts them; a broken stream publishes nothing |
| `StoredEntries.ChunkAtOffset` | src/proxy.rs:481-495 | the concatenation is as long as all chunks together, and each chunk stands in it behind all the chunks before it |
| `StoredEntries.WrittenReadsBack` | src/cache.rs:691-762 | every body and metadata a writer accepts is read back exactly |
| `StoredEntries.ServedLengthMatches` | src/proxy.rs:480-506 | a fetched, stored and served artifact has the fetched bytes and one content length, their number (section 8.6 of RFC 9110) |
| `Reservation.UnitsAreLeast` | src/cache.rs:375-375 | a reservation takes the least positive number of MiB that covers its bytes |
| `Reservation.MemoryReservation.Reserve` | src/cache.rs:374-405 | succeeds exactly when the units fit, then holds the larger of old and needed; a failure changes nothing; free plus held is conserved |
| `Reservation.MemoryReservation.Release` | src/cache.rs:407-410 | dropping the permit frees every unit |
| `Reservation.UnitsConserved` | src/cache.rs:373-410 | over any sequence of reservations and drops, free and held units add up to 1024 |
| `Reservation.ReleaseRestores` | src/cache.rs:407-410 | after any such sequence a drop gives back exactly what was held, which never exceeds the budget |
| `Reservation.ReadMetadataBody` | src/proxy.rs:510-531 | at every moment the buffer is covered by the reservation and within 128 MiB; success returns the concatenated chunks; each error has its cause, whatever other tasks reserve meanwhile |
| `Names.NamesParseBack` | src/cache.rs:308-324 | every name the store writes parses back to its key, in its own class |
| `Names.TempClass` | src/cache.rs:597-607 | a name is a temp of a key exactly when it is `<key>.part` or `<key>.part.<digits>.part` |
| `Names.LegacyClass` | src/cache.rs:590-595 | a name is a legacy file of a key exactly when it is `<key>.json` or `<key>.body` |
| `Names.KeysAreHashes` | src/cache.rs:579-588 | valid keys are exactly the hexadecimal texts of thirty-two byte hashes |
| `Names.ClassesAreDisjoint` | src/cache.rs:586-607 | no name is completed, temp and legacy in any two ways |
| `Names.TempNamesDistinct` | src/cache.rs:317-324 | different keys or counters give different temp names, none of them an artifact's |
| `Names.ClaimDirectory` | src/cache.rs:496-532 | the claim accepts exactly a directory with the right marker, or without marker one that holds only shards of owned files |
| `Names.LeftoversAreClaimed` | src/cache.rs:504-531 | whatever the store can leave behind is accepted |
| `Names.CleanShard` | src/cache.rs:343-360 | start-up keeps everything but the deletable stale files of a shard, in order |
| `Names.CleanupKeepsCompleted` | src/cache.rs:354-356 | start-up never deletes a completed entry or a foreign file, and leaves no deletable temp or legacy file |
| `Names.CompletedNames` | src/cache.rs:609-641 | the scan lists exactly the files whose names are valid keys of their shard |
| `Names.EvictionSparesTemps` | src/cache.rs:622-625 | what the scan lists is never a temp file of any key |
| `Identity.IdentityIsExact` | src/proxy.rs:48-55 | representation identities are equal exactly for the same rewrite and origin |
| `Identity.KeyIsExact` | src/cache.rs:678-689 | hash inputs are equal exactly for the same class, upstream and representation |
| `Identity.KeyLayout` | src/cache.rs:678-689 | what is hashed: class, URL and representation, each closed by a NUL |
| `Identity.NulCollides` | src/cache.rs:169-175 | with a NUL in the URL two different requests share a hash input |
| `Identity.AcceptedNames` | src/routes.rs:127-138 | accepted package names are canonical unscoped segments, and scope, one encoded slash in either case, name |
| `Identity.PackagePathIsExact` | src/routes.rs:127-143 | two accepted names share a path exactly when they differ at most in the hexadecimal case of the scope separator |
| `Identity.PackagePathIsNormal` | src/routes.rs:135-141 | the path is itself accepted and unchanged, and the final check for a slash never rejects |
| `Revalidation.ConfirmedIsDirect` | src/proxy.rs:285-295 | a stored body confirmed by a 304 is the rewrite of what upstream has at that moment |
| `Revalidation.PublishKeepsStore` | src/cache.rs:246-276 | storing for one request never changes what another request loads |
| `Revalidation.JoinsOwnRequest` | src/cache.rs:224-237 | a request only ever joins a flight started for the same URL and representation |
| `Revalidation.StepKeepsInv` | src/proxy.rs:260-354 | every step, an unasked 304, eviction, artifact store and restart keeps the invariant that whatever can be loaded was made from a 200 with a validator of that very URL |
| `Revalidation.CachedMetadataIsDirect` | src/proxy.rs:202-258 | in every run the body of every 200 metadata response, cold, revalidated or joined, is the upstream body current when the leader's request was answered, for a raw request, and what the rewriter makes of it for any other; it is within the limit and has the right length |
| `Revalidation.FetchesExactly` | src/proxy.rs:326-352 | a fetch can finish exactly when such a body exists, then has it, and goes to the store first exactly for a 200 with an etag or a date |
| `Revalidation.ConfirmsExactly` | src/proxy.rs:276-295 | with an entry in hand a 304 is possible exactly when it matches that entry's validators, and it serves that entry |
| `Revalidation.StoredIsLoaded` | src/cache.rs:246-276 | what a leader stores is what the next leader of the same request loads |
| `Revalidation.AsksExactly` | src/cache.rs:224-237 | a request joins a flight of the same request exactly when there is one in the map, and leads a new one otherwise |
| `Revalidation.JoinersAgree` | src/proxy.rs:299-312 | all clients of one flight get the same outcome for the same URL |
| `CanonicalPath.CanonicalSegment` | src/routes.rs:397-436 | the byte loop accepts exactly the non-empty, non-dot segments that are the upper-case rendering of permitted tokens |
| `CanonicalPath.CanonicalPath` | src/routes.rs:377-395 | the segment loop accepts exactly the non-empty paths of such segments, a trailing slash allowed |
| `CanonicalPath.EarlyRejectsAgree` | src/routes.rs:378-384 | the up-front rejections reject nothing the segments would let through |
| `CanonicalPath.CanonicalRewritePath` | src/routes.rs:438-462 | the byte loop computes the normalised path, or nothing |
| `CanonicalPath.CheckerAgreesWithNormaliser` | src/routes.rs:377-462 | a path is canonical exactly when the normaliser returns it unchanged |
| `CanonicalForm.NormaliserExact` | src/routes.rs:438-462 | the normaliser returns a path exactly when that path is canonical and stands for the same tokens as the input behind its slash, but for needless encodings and the case of digits |
| `CanonicalForm.AcceptedExactly` | src/routes.rs:438-462 | the normaliser accepts exactly the inputs that have such a path |
| `CanonicalForm.TokensExact` | src/routes.rs:443-460 | reading tokens undoes spelling them: a byte as itself, or a percent sign and two hexadecimal digits of either case |
| `CanonicalForm.EmitExact` | src/routes.rs:452-459 | plain bytes are written as they are, encoded ones with upper-case digits |
| `CanonicalForm.SegmentExact` | src/routes.rs:397-436 | a canonical segment in bytes: not empty, no dot segment, printable, nothing unreserved encoded and no delimiter in any form, digits in upper case |
| `CanonicalForm.PathExact` | src/routes.rs:377-395 | a canonical path is a segment, or a segment, a slash, and nothing or a canonical path |
| `CanonicalPath.Idempotent` | src/routes.rs:438-462 | normalising a second time changes nothing |
| `CanonicalPath.NeverLonger` | src/routes.rs:440-461 | an accepted path is never longer than its input |
| `CanonicalPath.MeaningKept` | src/routes.rs:449-459 | the decoded bytes are kept, exactly the needed encodings stay, and no dot segment appears |
| `CanonicalPath.NormalFormIsUnique` | src/routes.rs:438-462 | two paths normalise alike exactly when they differ only in hexadecimal case and needless encoding |
| `CanonicalPath.NoEncodedSeparator` | src/routes.rs:424-432 | no encoded slash, backslash, question mark or hash is left |
| `CanonicalPath.NoNewQuote` | src/routes.rs:443-460 | a quote in the output was written in the input |
| `CanonicalPath.EmitInjective` | src/routes.rs:452-459 | different token strings are written differently, so the output text determines the tokens |
| `LimitedOutput.Output.Extend` | src/routes.rs:25-38 | all of a piece or nothing of it, exactly when it fits |
| `PypiHtml.ScanShows` | src/routes.rs:473-476 | the scanned document has the text of the input |
| `PypiHtml.NextMatch` | src/routes.rs:158-159 | each turn finds the leftmost next match |
| `HtmlMatches.NextIsLeftmost` | src/routes.rs:473-476 | the match found is a match of the pattern, written out in bytes, and none starts between the position and it |
| `HtmlMatches.NoMatchNoChange` | src/routes.rs:149-188 | a page without a match is unchanged |
| `HtmlMatches.LeftmostMatchIsRewritten` | src/routes.rs:156-187 | otherwise the page up to its first match is kept, the value is replaced between its quotes, and the rest is rewritten alike |
| `PypiHtml.Rescan` | src/routes.rs:149-188 | scanning the output finds the same links with the same quotes, each value replaced by its rewrite, and the same bytes between them, if rewriting yields a non-empty value and no new quote |
| `PypiHtml.Splice` | src/routes.rs:156-187 | the splicing loop succeeds exactly when the unbounded rewrite fits, and then equals it |
| `PypiHtml.RewritePypiHtml` | src/routes.rs:149-188 | the same for the whole rewriter and both limits; text that is not UTF-8 is an error |
| `PypiLinks.RootRelativeIsGentle` | src/routes.rs:315-320 | a root-relative link stays non-empty and gains no quote when the origin has none |
| `PypiLinks.RewriterIsGentle` | src/routes.rs:283-321 | so does every link, if parsing shows no quote that is not written in it |
| `LinkRoutes.RewriteHrefExact` | src/routes.rs:283-321 | a link becomes its route through the proxy exactly when it has one: a files link without user or query keeps its canonical path and its fragment under the files route; an index link with nothing but a path under `simple/` keeps it under the index route; every other link stays as written |
| `LinkRoutes.SameBytes` | src/routes.rs:296-312 | the path of a routed link stands for the same decoded bytes as the path it was made from |
| `LinkRoutes.IndexStaysSimple` | src/routes.rs:301-319 | the canonical path of an index link is still under `simple/` |
| `LinkRoutes.TarballExact` | src/routes.rs:323-336 | an npm tarball link is replaced exactly when it is a plain link to the registry with a canonical path, which it keeps |
| `PypiLinks.RewrittenPageKeepsStructure` | src/routes.rs:149-188 | a rewritten page has the links of the original page, and only those |
| `PypiLinks.SiteRewriteTwice` | src/routes.rs:149-188 | rewriting a rewritten page changes nothing more, if links under the public origin parse to neither upstream |
| `PypiLinks.OutputFitsBound` | src/proxy.rs:57-73 | a rewrite within the hard limit is within the reserved bound, despite ceiling division and saturation, if every link pays for its growth with its own bytes |
| `PypiLinks.BoundFormula` | src/proxy.rs:57-73 | where nothing saturates, the bound is the page plus one growth for each eight bytes begun, and at most 128 MiB |
| `PypiLinks.SiteFitsBound` | src/proxy.rs:57-73 | the proxy's own rewriter stays within the reserved bound on every page, if parsing writes at most three bytes for one |
| `PypiLinks.ShortLinkPays` | src/proxy.rs:58-62 | links of eight bytes or more that grow by no more than the origin and sixteen bytes pay for it too |
| `NpmJson.FieldsHoldLast` | src/routes.rs:209-213 | the field map holds the last duplicate of every key |
| `NpmJson.FieldsSorted` | src/routes.rs:209-213 | one field per key, in key order |
| `NpmJson.LessExact` | src/routes.rs:209-213 | key order is lexicographic |
| `NpmJson.NpmFrame` | src/routes.rs:190-277 | at every path the output is present exactly when the input is; it is a new link exactly at `dist.tarball` and `versions.*.dist.tarball` when the string is accepted, keeps all keys of the objects on the way, and is the input's own text everywhere else |
| `NpmJson.NestedVersionsUntouched` | src/routes.rs:221-226 | a `versions` object inside a version is copied verbatim |
| `NpmReading.PrintReads` | src/routes.rs:279-281 | the written text is JSON, spelled out byte by byte and not through the writer: a reader of JSON finds in it exactly the document that was written |
| `NpmReading.NpmTextFrame` | src/routes.rs:190-277 | the frame on text: reading the output finds, at every path, the new link at the tarball paths, objects with the same keys on the way, and the input's own value elsewhere |
| `NpmWriter.WritePackage` | src/routes.rs:202-228 | writes the text of the rewritten package, or it does not fit |
| `NpmWriter.WriteVersions` | src/routes.rs:230-249 | writes the text of the rewritten versions, or it does not fit |
| `NpmWriter.WriteDist` | src/routes.rs:251-277 | writes the text of the rewritten distribution, or it does not fit |
| `NpmWriter.RewriteNpmJson` | src/routes.rs:190-200 | the bounded rewrite succeeds exactly when the unbounded text fits, and then equals it |

## Left out

- Routers, listeners and handlers (src/app.rs, src/cargo.rs, src/npm.rs, src/pypi.rs, src/main.rs): plumbing around the core.
- src/git.rs and the redirect policy of src/state.rs: short case analyses over strings and foreign URL types.
- src/config.rs, src/stats.rs, src/failure_log.rs: settings, counters and logging.
- `CacheStore` and `Inflight` as objects: their maps, semaphores and outcome cell are fields of one state value that steps replace, because what matters about them is the interleaving; lock-level aliasing is not modelled.
- The URL library, the JSON grammar, SHA-256, the regular expression engine and tokio: parameters with the hypotheses stated above; the pattern of src/routes.rs:473-476 is written out as a scanner, and a JSON value carries its own text.
- Whether a PyPI body is UTF-8 is a parameter of the rewriter.
- The npm frame holds for any link rewriter; `LinkRoutes.TarballExact` says what the proxy's own one does. The bound of `output_bound` for npm links, whose text the URL library may lengthen, is not stated.
- `working_set` and `limited_initial_capacity` for error bodies: sums and a minimum.
- "Every emitted link is served by the proxy" from end to end: `build_url` also rejects paths that parse as absolute URLs (src/routes.rs:364), so closure is stated at the level of canonical paths.
- Errors of the file system other than a missing file, a failed removal and a failed rename: opening and reading a published file succeed.
- Work on the blocking pool that outlives a cancelled future, and a spawned leader aborted before its first poll.
- Operating-system file locking, directory iteration order, wall-clock times beyond their order, timeouts, and 64-bit overflow of the summed sizes.
- Temp files of an earlier process that start-up could not delete and whose counter is used again.
- ProtocolTheorems.WaiterLoadsPublication: states nothing for exposed flights, because there it can fail (`ProtocolRace.WaiterCanMiss`, `ProtocolWitnesses.LoneLeaderCanMiss`); `ProtocolPublications.WaiterOpensExactly` says what holds for them.
- Revalidation.CachedMetadataIsDirect: says nothing about header values of a response confirmed by a 304 other than its length; the code sends the headers stored with the body.
