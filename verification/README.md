# Verified model of the enclave gateway

The gateway accepts TLS connections, reads the server name out of the
ClientHello, looks the name up in a routing table, and either splices the
connection to an enclave or terminates it and proxies HTTP and sealed
WebSockets inward. This project models the parts of it that keep state or run
concurrently, and proves what they keep over every input and every run.

`dafny verify dfyconfig.toml` checks the whole project. The modules, by part of
the system:

- Quarantine: `RouteTable` (the table and its hooks), `Tracker` (open traffic
  per host), `CutProtocol`, `CutSafety` and `CutServing` (one updater against any
  number of connections, every interleaving: what is kept, which updates are
  safe, what gets through), `TableVersion` and `VersionProofs` (what the
  version hashes and tells apart).
- The `privasys-mux/1` leg: `MuxCodec` (frames), `MuxWire` and `MuxWriting` (the
  shared writer), `MuxStreams`, `MuxProofs` and `MuxServing` (streams, reader,
  pumps and kill as concurrent processes), `MuxConn` and `MuxPool` (the same tables and the pool as objects).
- The front of a connection: `ClientHello`, `HelloProofs` and `HelloErrors` (the
  parser against the grammar, and against hellos cut short), `Relay` (read loop, replay, copy), `ProxyHeader`.
- Caches and registries: `Caches`, `SealedRuns` (concurrent requests),
  `CacheSync` (against the table), `TunnelRegistry`, `ChunkedWriter`.
- `Bytes` and `Text`: big-endian fields, ASCII case, string order.

A concurrent part is a step machine: `Step` lists the atomic actions (a critical
section, a channel or atomic operation), a step that is not enabled changes
nothing, so every sequence of steps is a run and a statement about all sequences
is a statement about all interleavings. A part the program runs as an object is
a class whose methods are proved against functions of its history.

## Where a property does not hold as first stated

For each of these there is a failing run or input, and a lemma that says exactly
when the code does meet the property.

- After an update's cuts are through, an uncut connection can still forward for
  a quarantined host: the hook does not fire for a host that comes back from
  absent as quarantined. `CutSafety.UpdateSafeIffNoSurprise` shows that an
  update is safe exactly when no host enters the table quarantined;
  `CutSafety.LeftoverRun` builds the failing run for every other update.
- A retired route does not always take its mux pool along: retiring compares
  upstream names, `Forget` drops pools by SNI. A route replaced by an alias of
  its own name in other letter case retires nothing and orphans the pool.
  `CacheSync.PoolsKeptIffNoSelfAlias` and `CacheSync.SelfAliasLeavesPoolBehind`.
- A chunked answer that may not carry a body (204, 304, any answer to HEAD)
  still ends in the last chunk, which the client takes for the start of the next
  response; an empty write ends a body early.
  `ChunkedWriter.ResponseIntactIff` and
  `ChunkedWriter.BodilessResponseLeavesLastChunk`.
- Different tables can hash the same bytes when the feed's JSON puts separators
  into fields: a NUL in an SNI or upstream, or a newline in a state together
  with a NUL in a state or a newline in an SNI. Newlines inside policy documents
  do no harm, and neither does any other placement.
  `VersionProofs.VersionExactIffHarmless` and the four collision lemmas.
- A bar in a name, or in a tunnel upstream, lets the sweep of one app drop
  another's cached proxy. `Caches.ProxySurvivesOthersIffBarFree`.
- The empty-policy fallback of the mux pools is reachable when a policy that
  parses shares its hash with one that does not.
  `SealedRuns.FallbackUnreachableIffHashSeparates`.
- The stream byte counter can run negative
  (`MuxProofs.CounterCanRunNegative`, and exactly when:
  `MuxProofs.CounterNegativeIffSendUncounted`); the buffer is bounded all the
  same (`MuxProofs.BufferIsBounded`).
- Frame, OPEN, CLOSE and PROXY header fields are cast without a range check; the
  round trips hold exactly for the values that fit.

Where the code and its own prose disagree the model follows the code: the ALPN
parser returns the names read so far on a malformed list, although its comment
says nil (internal/sni/sni.go:127 against 145-147); an adopter name that is
still pending is refused, `privasys-ratls/1` clients included, although
README.md:13 and internal/routetable/table.go:44-46 say otherwise; a changed
proxy_protocol flag retires a route, which the comment at
internal/routetable/table.go:111-113 does not list.

## Model

| member | source | states |
|---|---|---|
| `CutProtocol.Select` | internal/proxy/proxy.go:281-313 | An adopter hostname is never terminated, and while pending it is spliced for the ACME challenge only. |
| `CutProtocol.SelectTable` | internal/proxy/proxy.go:289-313 | The whole transport table in the feed's own fields: exactly which clients of which routes are spliced, which terminated, and that nothing else gets through. |
| `CutProtocol.NextKeepsInv` | internal/terminate/terminate.go:308-373 | Every step of the updater or of any connection keeps the protocol invariant: live ids are open on the right host or cut, and a forwarding connection is cut exactly as its observed statuses call for. |
| `CutProtocol.InvAlways` | internal/proxy/proxy.go:337-351 | The invariant holds in every reachable state of every interleaving. |
| `CutProtocol.CutExactlyWhenDue` | internal/quarantine/tracker.go:30-35 | Once the updater is done with a host, a forwarding connection of it has been cut if and only if it was cut before its second lookup or its host has since gone from active to quarantined. |
| `CutProtocol.QuiescentDangerNeedsAbsence` | internal/routetable/table.go:181-192 | With no cut pending, an uncut connection that forwards for a quarantined host has seen that host absent from the table since its second lookup. |
| `CutSafety.NoSurpriseRunsAreSafe` | internal/routetable/table.go:181-192 | In every run whose updates never bring a host in already quarantined, no uncut connection forwards for a quarantined host except while that host's own cut is pending. |
| `CutSafety.UpdateSafeIffNoSurprise` | internal/routetable/table.go:184-191 | For every pair of feeds: the update keeps a safe quiescent gateway safe, whatever connections do meanwhile, if and only if it brings no host in already quarantined. |
| `CutSafety.LeftoverRun` | internal/routetable/table.go:188-190 | For every update outside that condition there is a run from the start that ends quiescent and unsafe. |
| `CutSafety.ForwardingWasTrackedThenChecked` | internal/terminate/wsmux.go:191-215 | In every run a connection that forwards entered the tracker at some step, passed its second lookup at a later step with its host not quarantined, and has held the same entry ever since. |
| `CutSafety.DrainCuts` | internal/routetable/table.go:183-192 | From any state the updater alone can finish its cuts, and cuts of other hosts leave an open id open. |
| `CutServing.StatusIsLastState` | internal/routetable/table.go:83-90 | A name is absent exactly when the feed never names it, and quarantined exactly when the feed's last entry for it, in any letter case, has that state. |
| `CutServing.LookUpGoesOnIff` | internal/proxy/proxy.go:281-324 | The first lookup goes on, with the route's transport, exactly for an active host whose route gives the client one. |
| `CutServing.RequestGoesOnIff` | internal/terminate/terminate.go:305-311 | In every reachable state a terminated request of any kind goes on exactly when its host is not quarantined. |
| `CutServing.RecheckForwardsIff` | internal/terminate/terminate.go:321-342 | In every reachable state a tracked connection of any kind starts forwarding exactly when its host is not quarantined, and leaves otherwise. |
| `CutServing.ServedRun` | internal/terminate/terminate.go:308-371 | For every route not quarantined, every client its transport table lets through and every kind of traffic there is a run that tracks it, forwards it and does not cut it. |
| `CutServing.EveryConnectionCanEnd` | internal/terminate/terminate.go:371-388 | From every state a connection can end by its own steps, and its entry is then released or was cut. |
| `CutServing.RequestsFollow` | internal/terminate/terminate.go:375-388 | After an HTTP request or a declined upgrade, and after nothing else, a request of any kind may follow. |
| `CutServing.FinishGoesOnIff` | internal/terminate/terminate.go:371-388 | The end of a request releases its entry and leaves the connection open exactly when it goes on. |
| `CutServing.EntriesAreInFlight` | internal/quarantine/tracker.go:36-45 | In every reachable state the tracker's entries for a host are those of its uncut connections in flight, one each: nothing in flight escapes a cut, nothing ended is left behind. |
| `CutServing.UnretiredIsServedAlike` | internal/routetable/table.go:111-119 | A route that is not retired keeps its upstream, upstream name, directness and PROXY header for every client; a changed policy or state alone retires nothing. |
| `CutServing.HeaderTable` | internal/proxy/proxy.go:353-363 | Exactly which clients of which routes are announced with a PROXY header. |
| `Tracker.RunAccountsForEveryId` | internal/quarantine/tracker.go:55-119 | Over every run of track, release and cut, an id's close function has started once if its host was cut before the id was released and never otherwise, and the id is in the tracker, under its own host only, exactly while neither has happened. |
| `Tracker.NoHostKeepsAnEmptyMap` | internal/quarantine/tracker.go:76-81 | After every run no host maps to an empty set of entries. |
| `Tracker.EntriesAreOpenIds` | internal/quarantine/tracker.go:87-94 | The entries kept for a host are exactly the ids its history leaves open, so a late or repeated release never removes a newer entry. |
| `Tracker.NextCountsTracks` | internal/quarantine/tracker.go:60-62 | The id counter equals the number of Track calls. |
| `Tracker.EntriesKeepTheirKind` | internal/quarantine/tracker.go:61-68 | Every entry keeps the kind it was tracked with. |
| `Tracker.Tracker.constructor` | internal/quarantine/tracker.go:48-50 | A new tracker has an empty history. |
| `Tracker.Tracker.Track` | internal/quarantine/tracker.go:55-84 | Adds one entry under the lower-case host with a fresh id, returns a release for it, and starts no close function. |
| `Tracker.Tracker.Release` | internal/quarantine/tracker.go:71-83 | Releases once; a repeated call changes nothing. |
| `Tracker.Tracker.Open` | internal/quarantine/tracker.go:87-94 | Returns the number of ids the history leaves open on the host. |
| `Tracker.Tracker.CutHost` | internal/quarantine/tracker.go:99-119 | Starts the close function of exactly the ids still open on the host, each once, and returns their number. |
| `Tracker.Tracker.CloseAll` | internal/quarantine/tracker.go:110-114 | Every close function of the set starts once. |
| `RouteTable.LookupFindsLastEntry` | internal/routetable/table.go:161-174 | A lookup in any letter case returns the feed's last entry for that name, and nothing exactly when the feed never names it. |
| `RouteTable.LookupIgnoresCase` | internal/routetable/table.go:137-141 | Names that differ only in ASCII letter case look up the same route. |
| `Text.SameLettersIffLower` | internal/routetable/table.go:134-139 | Two names have the same lower-case form exactly when, place by place, they are equal or the two cases of one ASCII letter. |
| `Text.LowerKeepsLetters` | internal/routetable/table.go:171-173 | Lower-casing changes case only, and nothing exactly where there is no capital. |
| `RouteTable.CountsQuarantinedEntries` | internal/routetable/table.go:162-166 | The count is the number of feed entries in the quarantined state. |
| `RouteTable.QuarantineGuardSuppressesNothing` | internal/routetable/table.go:162-183 | The count taken before duplicates collapse is positive whenever the collapsed table holds a quarantined route. |
| `RouteTable.NotifyQuarantined` | internal/routetable/table.go:183-192 | Ranging over the new table and testing each host, the hook runs once for every active-to-quarantined host, for no other, and with the new table in place. |
| `RouteTable.NotifyRetired` | internal/routetable/table.go:193-200 | Ranging over the old table and testing each host, the hook runs once for every retired route, for no other, and with the new table in place. |
| `RouteTable.Table.Lookup` | internal/routetable/table.go:137-141 | Returns the last entry of the feed in force for the name in any letter case, or nothing when there is none. |
| `RouteTable.Table.Update` | internal/routetable/table.go:155-202 | Refines the fold of the feed; nothing changes on an equal non-empty version; after the swap the hooks fire exactly once per active-to-quarantined host and once per retired route. |
| `TableVersion.SortBySni` | internal/routetable/table.go:240-244 | The sorted copy is a permutation of the feed in SNI order. |
| `Text.LessIffFirstDifference` | internal/routetable/table.go:242-244 | The order of names is by the first difference, a proper prefix coming first. |
| `TableVersion.ComputePreimage` | internal/routetable/table.go:239-257 | The hashed bytes are the line encoding of a sorted permutation of the feed. |
| `TableVersion.VersionIndependentOfFeedOrder` | internal/routetable/table.go:239-257 | With distinct SNIs, any two sorted copies of two orders of the same routes are the same list and hash the same bytes. |
| `VersionProofs.PreimageDeterminesRoutes` | internal/routetable/table.go:247-255 | For any policy texts without NUL, newlines included: with no NUL in any field and no newline in SNI or upstream, equal hashed bytes mean equal sorted lists of SNI, upstream, policy and state. |
| `VersionProofs.HarmlessDeterminesRoutes` | internal/routetable/table.go:247-255 | For policies that are JSON documents, the same wherever no NUL is in an SNI or upstream and a newline is in a state only without one in an SNI and without NUL in a state. |
| `VersionProofs.VersionExactIffHarmless` | internal/routetable/table.go:239-257 | Over all feeds with JSON policies, for each choice of fields that may hold NULs or newlines: no two different sorted tables hash the same bytes if and only if that choice is harmless in the sense above. |
| `VersionProofs.NulInSniCollides` | internal/routetable/table.go:248 | Every stateless route with a NUL in its SNI and a policy hashes like the route with its fields shifted by one. |
| `VersionProofs.NulInUpstreamCollides` | internal/routetable/table.go:248 | The same for a NUL in the upstream. |
| `VersionProofs.LineInStateCollides` | internal/routetable/table.go:251-254 | For all routes in SNI order, the first with a state, one route whose state carries the second one's line hashes like the two. |
| `VersionProofs.NewlineInStateAndSniCollides` | internal/routetable/table.go:248-254 | For all routes in SNI order, text before a newline in the second SNI can move behind a newline in the first state. |
| `MuxCodec.FrameRoundTrip` | internal/terminate/wsmux.go:581-606 | A frame followed by anything decodes to itself and that rest if and only if its sid and payload lengths fit. |
| `MuxCodec.FrameOnTheWire` | internal/terminate/wsmux.go:585-604 | Each field of a fitting frame stands at its place, lengths and stream big-endian. |
| `Bytes.MostSignificantFirst` | internal/terminate/wsmux.go:588-589 | Numbers on the wire have their most significant octet first. |
| `MuxCodec.TruncatedFrameIsShort` | internal/terminate/wsmux.go:641-663 | A frame cut off anywhere reads as incomplete, never as another frame. |
| `MuxCodec.FramesRoundTrip` | internal/terminate/wsmux.go:641-663 | Frames written back to back, followed by an incomplete one, read back as exactly those frames. |
| `MuxCodec.FrameReader.ReadMuxFrame` | internal/terminate/wsmux.go:641-663 | Reads the frame the decoder defines and leaves the rest, failing exactly when there is no whole acceptable frame. |
| `MuxCodec.EncodeMuxOpen` | internal/terminate/wsmux.go:612-621 | The buffer filled by offset holds host length, host, path length, path and envelope. |
| `MuxCodec.OpenRoundTrip` | internal/terminate/wsmux_test.go:126-142 | An OPEN payload decodes to the same host, path and envelope if and only if both lengths fit 16 bits. |
| `MuxCodec.CloseRoundTrip` | internal/terminate/wsmux.go:623-639 | A CLOSE payload decodes to the same reason for every code, and to the same code, 0 becoming normal closure, if and only if the code fits 16 bits. |
| `MuxCodec.OpenOnTheWire` | internal/terminate/wsmux.go:612-621 | Each field of an OPEN payload stands at its place. |
| `MuxCodec.CloseOnTheWire` | internal/terminate/wsmux.go:623-628 | The code, cut to 16 bits, and then the reason. |
| `MuxWire.InvAlways` | internal/terminate/wsmux.go:590-605 | In every interleaving of callers the bytes out and buffered are the flushed frames followed by the begun part of one frame. |
| `MuxWire.WireDecodesToWrittenFrames` | internal/terminate/wsmux.go:581-606 | At every moment of every interleaving the wire decodes to exactly the frames flushed, in lock order, and at most the one being written besides. |
| `MuxWriting.FramesAreConserved` | internal/terminate/wsmux.go:581-606 | In every run no frame is written that was not accepted, nor more often, and while nothing has failed each accepted frame is written, waiting or in hand. |
| `MuxWriting.DeadAcceptsNothing` | internal/terminate/wsmux.go:581-584 | From the moment a connection is dead no further frame is accepted, in any continuation. |
| `MuxWriting.WrittenRun` | internal/terminate/wsmux.go:590-605 | Every sequence of fitting frames can be written, in that order. |
| `MuxWriting.CutAnywhere` | internal/terminate/wsmux.go:593-605 | After any frames the enclave can see the next one stop at any octet. |
| `MuxWire.MuxWriter.WriteFrame` | internal/terminate/wsmux.go:581-606 | Sends the whole encoded frame, or fails: sending nothing on a dead or broken connection, otherwise a beginning of the frame, after which the writer stays broken. |
| `MuxProofs.InvAlways` | internal/terminate/wsmux.go:136-267 | The delivery, queue and life-cycle invariants of every stream hold in every reachable state. |
| `MuxProofs.BrowserReceivesAPrefix` | internal/terminate/wsmux.go:222-240 | What a browser received is, in order and without gaps, a prefix of the DATA payloads that arrived for its key while its stream held it. |
| `MuxProofs.BufferIsBounded` | internal/terminate/wsmux.go:532-540 | In any interleaving a stream holds at most 4096 frames and 8 MiB, and its bytes are the counter plus sent-not-yet-added minus received-not-yet-subtracted. |
| `MuxProofs.CounterCanRunNegative` | internal/terminate/wsmux.go:229-230 | For every payload within the bound there is a run that leaves the counter at minus its length. |
| `MuxProofs.CounterNegativeIffSendUncounted` | internal/terminate/wsmux.go:532-540 | In every reachable state the counter is negative if and only if the reader has sent a payload it has not added and less than that is queued or taken and not subtracted. |
| `MuxProofs.SweptStreamsFinish` | internal/terminate/wsmux.go:490-506 | Once kill has swept, every stream for which a write passed the dead check is finished, or is out of the table with someone about to finish it. |
| `MuxProofs.LateStreamNeverWrites` | internal/terminate/wsmux.go:581-584 | A stream registered after the sweep never passes the dead check and never writes a frame. |
| `MuxProofs.OnlyItsOwnUnregisterEvicts` | internal/terminate/wsmux.go:463-472 | In every run, between holding its key and not holding it a stream was unregistered in its own name or swept, so a late unregister by an older stream with the same key never evicts a newer one. |
| `MuxProofs.ReaderTouchesOneStream` | internal/terminate/wsmux.go:510-561 | From every reachable state, however many frames the reader handles for other keys, overflows and closes included, a stream's record, queue and table entry stay as they were. |
| `MuxServing.CloseFrameClosesItsStream` | internal/terminate/wsmux.go:547-556 | From every reachable state a CLOSE frame takes the holder of its key out of the table and finishes it, and changes nothing else; without a holder it changes nothing. |
| `MuxServing.DataFrameIsQueuedOrOverflows` | internal/terminate/wsmux.go:523-546 | From every reachable state a DATA payload within both bounds joins the queue behind what waits there and is counted; otherwise its stream alone leaves the table and is finished. |
| `MuxServing.PumpDeliversTheOldest` | internal/terminate/wsmux.go:222-240 | A round of the pump hands the browser the payload that waited longest and takes it off the counter. |
| `MuxServing.PumpEnds` | internal/terminate/wsmux.go:226-238 | A failed write finishes the stream, and a waiting pump may stop exactly when the stream is finished. |
| `MuxServing.CutFinishesStream` | internal/terminate/wsmux.go:201-204 | The quarantine closure finishes the stream, and tells the enclave exactly while the connection lives. |
| `MuxServing.OpenIsWritten` | internal/terminate/wsmux.go:207-220 | Serving starts with a frame exactly while the connection lives; a failed write or a refusal ends it, the refusal without a frame. |
| `MuxServing.RegisterTakesFreeKey` | internal/terminate/wsmux.go:191-195 | A new stream gets its key exactly when the key is free. |
| `MuxServing.ServingEndsFinished` | internal/terminate/wsmux.go:463-472 | At the end of serving the stream is out of the table and finished, and every other stream keeps its key. |
| `MuxServing.KillFinishesEveryStream` | internal/terminate/wsmux.go:490-506 | From every reachable state with a live connection a kill can be carried through, the table is then empty and every stream that was in it finished. |
| `MuxConn.GwStream.Finish` | internal/terminate/wsmux.go:443-451 | Closes the browser once, with the first caller's code. |
| `MuxConn.GwStream.Enqueue` | internal/terminate/wsmux.go:532-540 | With nobody else at work, a payload is queued exactly when both bounds allow it, and the counter stays equal to the bytes queued. |
| `MuxConn.GwMuxConn.Register` | internal/terminate/wsmux.go:453-461 | Succeeds exactly when the key is free, and changes that key only. |
| `MuxConn.GwMuxConn.Unregister` | internal/terminate/wsmux.go:463-472 | Removes this stream only; any other stream, under the same key too, stays. |
| `MuxConn.GwMuxConn.Kill` | internal/terminate/wsmux.go:489-506 | Once: empties the table and finishes every stream in it, those still open with going-away; a second call changes nothing. |
| `MuxPool.GwMuxPool.Prune` | internal/terminate/wsmux.go:332-338 | Keeps exactly the live members, in order. |
| `MuxPool.GwMuxPool.Get` | internal/terminate/wsmux.go:328-363 | Never exceeds the pool size; hands out a live member no other carries fewer streams than, dials only when there is room and every live member is busy, and fails only when nothing is live and the dial fails. |
| `MuxPool.GwMuxPool.CloseAll` | internal/terminate/wsmux.go:405-413 | Empties the pool, kills every member, and finishes every stream that rode a live one. |
| `ClientHello.ParseSniExtension` | internal/sni/sni.go:164-199 | The index loop returns the first host_name of a list well formed that far, and never an empty one. |
| `ClientHello.ParseAlpnExtension` | internal/sni/sni.go:128-152 | The index loop returns the names up to the first malformed one. |
| `ClientHello.ScanExtensions` | internal/sni/sni.go:97-120 | The extension loop agrees with the recursive scan over what is left to read. |
| `ClientHello.ParseClientHello` | internal/sni/sni.go:30-121 | On every byte sequence the parser terminates, reads in bounds and returns what the layered reading of record, handshake and body gives, each error case included. |
| `HelloProofs.ParseReadsBack` | internal/sni/sni.go:30-199 | For every well-formed hello in one record, whatever follows it, parsing gives its hostname and protocol list, or no-SNI when it names no host. |
| `HelloProofs.OneHostOneList` | internal/sni/sni.go:106-113 | With one server name and one protocol extension anywhere among unknown ones, the meaning is exactly that host and that list. |
| `HelloProofs.MalformedAlpnKeepsEarlierNames` | internal/sni/sni.go:139-151 | A list whose last entry is cut short yields all the names before it. |
| `HelloProofs.ResultIsStable` | internal/sni/sni.go:32-43 | A result other than truncation is unchanged by any later bytes. |
| `HelloErrors.ErrorKinds` | internal/sni/sni.go:32-51 | Exactly which inputs are reported as not TLS and which as not a ClientHello. |
| `HelloErrors.RecordDecides` | internal/sni/sni.go:38-43 | A whole first record decides the result, whatever follows. |
| `HelloErrors.CutHello` | internal/sni/sni.go:58-95 | A hello whose body stops after any number of octets is truncated up to the end of the cipher suites and inside the extensions, and names no host in between, without an extension block for one. |
| `HelloErrors.CutExtension` | internal/sni/sni.go:97-104 | A block that stops inside an extension is truncated, or read without it when less than its header is there. |
| `HelloErrors.CutNames` | internal/sni/sni.go:178-185 | A server name list that stops inside a name says what the names before it say. |
| `HelloErrors.ShortLists` | internal/sni/sni.go:128-135 | A name or protocol list shorter than its length field says nothing. |
| `Relay.Settled` | internal/proxy/proxy.go:260-269 | The first read that does not parse as truncated, or that fills the buffer, decides the outcome for every continuation of the stream. |
| `Relay.ReadyIffRecordParses` | internal/proxy/proxy.go:260-263 | For every name and protocol list: a client gets through with exactly these if and only if its first record is a handshake record, arrives whole within the buffer and parses to them. |
| `Relay.RefusedIff` | internal/proxy/proxy.go:254-269 | The exact condition on the stream for each refusal and for the read error. |
| `Relay.HelloGetsThrough` | internal/proxy/proxy.go:253-270 | Every well-formed hello that names a host and fits the buffer gets through with its own name and protocol list. |
| `Relay.ReadHello` | internal/proxy/proxy.go:253-270 | Whatever the segmentation, the outcome is a function of the client's stream and the buffer size alone, and no byte read is lost. |
| `Relay.Copy` | internal/proxy/proxy.go:422-440 | At every moment the destination holds a prefix of what it should, and all of it if nothing failed; the total is what it received. |
| `Relay.Splice` | internal/proxy/proxy.go:360-379 | At every moment the backend has received a prefix of the optional header followed by the bytes read and the rest of the client's stream, and all of it if nothing failed. |
| `Relay.SpliceClient` | internal/proxy/proxy.go:233-379 | From the client's first byte: nothing is sent unless the hello gets through; then at every moment the backend holds a prefix of header and client stream, which with valid addresses decodes to both endpoints and a prefix of the client's own stream, and to all of it if nothing failed. |
| `Relay.PrefixConn.Read` | internal/proxy/proxy.go:187-194 | A read takes a piece off the front of the replayed bytes followed by the connection, without loss or reordering. |
| `Relay.Replay` | internal/terminate/io.go:22-35 | After the hello was read, the terminator's connection gives the client's stream again from its first byte. |
| `ProxyHeader.ProxyV2Header` | internal/proxy/proxyproto.go:17-39 | Built exactly for two TCP addresses, as the function the round trip is proved of. |
| `ProxyHeader.LengthFieldIsBodyLength` | internal/proxy/proxyproto.go:35-38 | The length field equals the body length, for all addresses. |
| `ProxyHeader.HeaderOnTheWire` | internal/proxy/proxyproto.go:23-34 | Signature, version, command and family octet by octet, IPv4 exactly when both addresses have that form. |
| `ProxyHeader.HeaderRoundTrip` | internal/proxy/proxyproto.go:17-39 | A section 2.2 reader gets back both endpoints and the payload if and only if both IPs are valid and both ports fit 16 bits. |
| `ChunkedWriter.BodyReadsBack` | internal/terminate/io.go:119-153 | A sequence of non-empty writes, finished, decodes to their concatenation and leaves exactly what follows on the connection. |
| `ChunkedWriter.BodyCutShort` | internal/terminate/io.go:123-131 | With an empty write the body ends there and the later chunks are left over on the connection. |
| `ChunkedWriter.DigitsAreHex` | internal/terminate/io.go:125 | Sizes are written in the sixteen lower-case digits, and read in either case. |
| `ChunkedWriter.FramingOctets` | internal/terminate/io.go:125-149 | The delimiters and the last chunk, in characters. |
| `ChunkedWriter.ChunkedBodyIntactIffNoEmptyWrite` | internal/terminate/io.go:123-150 | By the chunked coding alone, a finished body reads back whole, with nothing left over, if and only if no write was empty. |
| `ChunkedWriter.ResponseIntactIff` | internal/terminate/io.go:97-150 | For every status, HEAD or not: a client reads exactly the writes and finds the next response in its place if and only if, chunked, the message may carry a body and no write was empty, or, with a declared length, the writes add up to it (to nothing where no body may follow). |
| `ChunkedWriter.BodilessResponseLeavesLastChunk` | internal/terminate/io.go:101-150 | A 204, 304 or answer to HEAD without Content-Length and without writes leaves five stray octets before the next response. |
| `ChunkedWriter.ConnResponseWriter.WriteHeader` | internal/terminate/io.go:86-117 | The first call alone decides the framing: chunked exactly on a final status without Content-Length or Transfer-Encoding. |
| `ChunkedWriter.ConnResponseWriter.Write` | internal/terminate/io.go:119-133 | The body so far stays the chunks, or the plain bytes, of the writes so far. |
| `ChunkedWriter.ConnResponseWriter.FlushClose` | internal/terminate/io.go:144-153 | For every status and request: the finished response reads back as its writes with nothing left over, for any following bytes, if and only if it fits its framing. |
| `Caches.PrefixMeansSameApp` | internal/terminate/terminate.go:467-476 | With upstreams and names free of bars, the prefix test matches the keys of that upstream and name and no others. |
| `Caches.KeysEqual` | internal/terminate/terminate.go:456-466 | Two keys are equal exactly when upstream, name and policy hash are. |
| `Caches.OnlyOwnPrefixIffBarFree` | internal/terminate/terminate.go:467-476 | For every key with a bar-free hash: no other app's prefix matches it if and only if its upstream and name hold no bar. |
| `Caches.ProxySurvivesOthersIffBarFree` | internal/terminate/terminate.go:210-223 | For every buildable route: its cached proxy survives the sweep of every other app if and only if its upstream and upstream name hold no bar. |
| `Caches.PrefixSweepRemovesApp` | internal/terminate/terminate.go:210-235 | On a valid cache the sweep by string prefix removes exactly one app's entry and keeps the cache valid. |
| `Caches.HitIsThisApp` | internal/terminate/terminate.go:464-466 | A hit was built for the requested upstream, name and policy hash. |
| `Caches.HitsEnforcePolicyIffInjective` | internal/terminate/terminate.go:698-704 | Every hit on every valid cache enforces the requested policy if and only if the policy hash is injective. |
| `Caches.InjectiveIffDigest` | internal/terminate/terminate.go:698-704 | The policy hash is injective if and only if the digest is on non-empty policies and never spells the mark of an absent one. |
| `Caches.ChangedPolicyRebuildsProxy` | internal/terminate/terminate.go:467-481 | An app cached under one policy and asked for under another the digest tells apart gets a proxy that enforces the new one, or none; nothing built for the old one is left. |
| `Caches.ChangedPolicyRebuildsPool` | internal/terminate/wsmux.go:300-325 | The same for its mux pool, which is always rebuilt, as a fallback exactly when the new policy does not parse. |
| `Caches.HitKeepsCaches` | internal/terminate/terminate.go:464-466 | A hit leaves the cache as it was. |
| `Caches.BuildableIff` | internal/terminate/terminate.go:478-494 | A proxy is built exactly for a policy that is absent or parses and an address that is valid: the upstream's, or for a tunnel the canonical name's or else the SNI's. |
| `Caches.Handler.SweepPrefix` | internal/terminate/terminate.go:469-476 | The range-and-delete loop removes exactly the keys with the prefix. |
| `Caches.Handler.ProxyFor` | internal/terminate/terminate.go:455-603 | At most one entry per app; the result was built for the route's upstream, name and policy hash and enforces what its policy parsed to; a hit changes nothing; none exactly when there was none and none can be built; every other app keeps its entry. |
| `Caches.Handler.MuxPoolFor` | internal/terminate/wsmux.go:290-326 | At most one pool per app; the result is for the route's upstream, SNI and policy hash; a hit changes nothing; every other app keeps its pool. |
| `Caches.Handler.Forget` | internal/terminate/terminate.go:210-235 | Drops the app's proxy by upstream name and its pool by SNI, and nothing of any other app. |
| `Caches.Handler.ServeSealed` | internal/terminate/terminate.go:264-318 | One request alone: a pool only after a proxy for the same route; with an injective policy hash the pool enforces the route's own parsed policy. |
| `SealedRuns.FallbackUnreachableIffHashSeparates` | internal/terminate/wsmux.go:309-312 | In every interleaving of requests and retirements, for all routes: no pool is ever built with the empty-policy fallback if and only if no policy that parses shares its hash with one that does not. |
| `SealedRuns.SeparatesIffDigest` | internal/terminate/terminate.go:687-704 | That condition in terms of the digest and the policy parser alone. |
| `SealedRuns.ForgetTakesTheApp` | internal/terminate/terminate.go:210-235 | A retired route takes exactly what is filed under its two prefixes, its own proxy and pool among it, and no running connection. |
| `SealedRuns.SealedStreamEnforcesItsPolicy` | internal/terminate/terminate.go:308-318 | With an injective policy hash, whatever other requests came between, the pool a sealed stream gets enforces its own route's parsed policy. |
| `CacheSync.CachedProxiesAreLive` | internal/terminate/terminate.go:204-224 | After every sequential history each cached proxy serves a route still in the table. |
| `CacheSync.CachedPoolsAreLive` | internal/terminate/terminate.go:226-234 | The same for mux pools, over histories in which no update turns a served route into an alias of itself whose pool no retired prefix covers. |
| `CacheSync.ServeFillsCaches` | internal/terminate/terminate.go:269-317 | Serving a route fills its proxy exactly when it can be built or was there, its pool exactly for a sealed stream that has a proxy, and nothing else. |
| `CacheSync.PoolsKeptIffNoSelfAlias` | internal/routetable/table.go:193-200 | For every pair of feeds, bars included: the update leaves no pool behind, whatever was served before, if and only if it turns no served route into such an alias of itself. |
| `CacheSync.SelfAliasLeavesPoolBehind` | internal/routetable/table.go:70-81 | For every buildable name with two spellings there is a history that ends with an empty table, no proxy and a pool left over. |
| `TunnelRegistry.LiveAreAscending` | internal/tunnel/tunnel.go:111-134 | The live entries of an enclave are exactly those registered and not unregistered, in order of registration. |
| `TunnelRegistry.GoneDropsId` | internal/tunnel/tunnel.go:119-125 | Unregistering an entry drops its id from its enclave's live list and nothing else. |
| `TunnelRegistry.Registry.Register` | internal/tunnel/tunnel.go:111-117 | Appends one new entry to its enclave, raises the gauge by one and leaves other enclaves alone. |
| `TunnelRegistry.Registry.Unregister` | internal/tunnel/tunnel.go:117-133 | Takes out exactly its own entry, never leaves an empty list, leaves other enclaves alone; the gauge is the number of live entries less the repeated calls. |
| `TunnelRegistry.Registry.Without` | internal/tunnel/tunnel.go:119-125 | The scan-and-cut loop removes the entry wherever it stands, and nothing when it is not there. |
| `TunnelRegistry.Registry.Connected` | internal/tunnel/tunnel.go:137-141 | The number of enclaves with a live entry. |
| `TunnelRegistry.Registry.Pick` | internal/tunnel/tunnel.go:143-159 | A newest non-closed session of the enclave, the earliest registered among equally new ones, or nothing exactly when none is open. |

## Left out

- TLS, X.509, RA-TLS verification, SHA-256, yamux and the WebSocket library: foreign code; connections are byte sequences and the policy hash is a function parameter.
- Deadlines, keepalive, metrics other than the tunnel gauge, and logging: no property here depends on them.
- Configuration, certificates, health, the feed poller, tunnel accept and authorisation: wiring and HTTP clients; a feed is an arbitrary sequence of updates.
- CORS, reconcilePublicCORS, parseSealedWS, Snapshot, writePreamble, EnclaveID: short case analyses.
- The dispatch of enclave tunnels by ALPN ahead of the route lookup (internal/proxy/proxy.go:274-279).
- A nil tracker and a nil route lookup: the quarantine model has both, as the gateway's main does.
- When a close function finishes: Tracker counts it as run when it is started.
- The 64-bit wrap of the tracker's id counter, and letter case beyond ASCII.
- Frames the demux reader writes itself (CLOSE for unknown or overflowing streams, PONG): they pass through the writer modelled in MuxWire but are not steps of MuxStreams.
- Chunk extensions and trailers; answers to CONNECT, bodies delimited by closing the connection, and a Transfer-Encoding set by the handler itself; a read that returns data together with an error; the size of buffered writers, which may spill at any time.
- Requests that still hold an old route across an update: the agreement of caches and table is claimed and proved for sequential histories.
- The JSON grammar of policies: VersionProofs uses only that a document holds no NUL and never continues after a newline where another document is complete.
- MuxWire.WireDecodesToWrittenFrames: covers frames whose lengths fit, because the casts in the writer garble the others and FrameRoundTrip says exactly which.
- MuxConn.GwStream.Enqueue: states the queue with no concurrent pump; BufferIsBounded states it with one.
- ClientHello.ParseClientHello: handshake messages spread over several records read as truncated, as in the code.
- Relay.SpliceClient: models the client-to-backend direction; the other direction is the same copy loop. Whether a route gets a PROXY header (internal/proxy/proxy.go:360-363) is its `wanted` parameter, which HeaderTable decides, and the lookups in between are those of CutProtocol.
- TableVersion.SortBySni: a selection loop stands for the library sort; only its contract is used.
