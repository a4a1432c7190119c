# A verified model of the AirU v2 firmware

AirU v2 is the firmware of an ESP32 air-quality monitor. This project models its five pieces of hard logic
in Dafny and proves what they are for:

* **The WiFi manager** (`WifiConfig`, `WifiProtocol`, `WifiSafety`, `WifiCredentials`, `WifiLatePost`,
  `WifiBranches`, `WifiSuccess`, `WifiOutcome`, `WifiPosts`, `WifiClient`, `WifiRetry`, `WifiRequests`,
  `WifiProgress`, `WifiStranded`, `WifiRuns`, `WifiManager`, `HttpHeader`). A service task, the driver's event
  handler, the ping callback, the reconnect timer and the HTTP server share one event-group word, one RAM
  config, one stored config and one status document. In the protocol the task takes one step per access to
  shared state, and the theorems about runs take every interleaving. The class `Manager` is the firmware's own
  program: handlers that call the event group several times, and a service loop with its branches and its local
  `uxBits`, followed along any schedule. It is proved to end in the state the protocol's run ends in.
* **The access-point list** (`ApFilter`, `ApDocument`, `StatusDocument`). The in-place merge and compaction
  refine "one record per network, in order of first occurrence, with the strongest signal". The two JSON
  documents are printed into fixed buffers.
* **JSON** (`JsonString`, `JsonParser`). The two-pass escaper and the printers are proved against an
  independent reader after sections 2 to 7 of RFC 8259.
* **The file upload** (`ChunkedUpload`, `MultipartText`, `ChunkedCoding`). One buffer is reused for every chunk; what goes out is
  proved against an independent decoder after section 4.1 of RFC 7230.
* **The sensors** (`Nmea`, `NmeaRoundTrip`, `NmeaRefusal`, `Gps`, `PmSensor`). NMEA sentences and particulate-matter packets,
  and the state accumulated over runs of them.

`Bytes`, `TextSearch` and `Numerals` hold what the C library provides. `dafny verify dfyconfig.toml` checks everything.

## Where the code does not do what one would expect

These are proved, with the condition under which the code does do it.

* An iteration whose snapshot asks for a connection can come to its connect call if and only if the snapshot has no
  link, or the link is still up and there is no request to forget (`WifiStranded.ConnectsIff`). So a link lost at the
  loop head, for a reason that asks for a reconnection, strands that reconnection: the handler sets the request bit
  first, FreeRTOS releases a waiting task with the word as it is at that call, and the task then waits for a loss that
  has been reported already (`WifiStranded.LossAtHeadStrandsReconnect`, reached from start-up by
  `WifiStranded.StrandingIsReachable`). And a request to forget together with one to connect, with a link, makes the
  forget branch drop the link that the connect branch then waits to see dropped, without any race
  (reached from start-up by `WifiStranded.BothRequestsAreReachable`). The same for erasing the credentials is
  `WifiStranded.ErasesIff`, with the run `WifiStranded.MissedErasureIsReachable`.
* The first document after a POST is the outcome of an attempt with the posted config, in every run without another
  POST, if and only if the POST found the task waiting at the loop head, on its way to an outcome of that config, or
  bound for a wait that never returns (`WifiPosts.FirstReportIsOwnIff`). Its request is served before it is released
  if and only if no attempt is being made already (`WifiPosts.RequestIsServedIff`).
* Flash holds only credentials that worked in every run without a POST at one of the vulnerable positions
  (`WifiCredentials.StoredConfigWasReached`). A POST of credentials never tried can be stored untried if and only if
  it comes at such a position (`WifiLatePost.LatePostIsStoredIff`), and one is reached from start-up
  (`WifiLatePost.UntriedIsReachable`).
* After filtering, the slots behind the access-point list are all zero if and only if no nameless record that was not
  zero stood there in the scan (`ApFilter.TailIsZeroIff`, `ApFilter.HiddenNetworkStays`).
* The credentials stored are the ones sent if and only if they fit and the SSID does not shadow the password by
  containing the password's header name (`HttpHeader.StoredAsSentIff`; `HttpHeader.ShadowingSsid` is an SSID that
  does).
* A GPS line that ends with CR and LF has its checksum examined only if the first of its two checksum digits is a
  star (`NmeaRoundTrip.LineEndHidesChecksum`). Where it is examined, the sum leaves out the second byte, so a
  sentence right by NMEA 0183 is refused (`NmeaRoundTrip.StandardChecksumIsRefused`).
* The status document is printed from the SSID's 32-byte field, which has no NUL of its own when it is full: the name
  printed is the SSID if and only if the SSID is shorter than 32 bytes or there is no password
  (`WifiConfig.NamesSsidIff`); otherwise it is the SSID and the password together. A client can still tell the SSID
  (`WifiConfig.PrintedNameTellsSsid`).
* `main/include/wifi_manager.h:133-138` says the status buffer is long enough for an SSID in which every character is
  escaped. `StatusDocument.StatusFitsIff` says exactly when the document fits. With three addresses of twelve digits,
  32 quotes make 158 bytes for 150 (`StatusDocument.QuotedStatusDoesNotFit`), and a plain SSID of 32 bytes with a
  password of 63 makes 189 (`StatusDocument.FullSsidDoesNotFit`).
* `main/include/wifi_manager.h:123-131` counts 99 bytes for an entry of the list whose SSID is all quotes.
  `ApDocument.ListFitsIff` says exactly when a list fits; fifteen such entries do not
  (`ApDocument.QuotedListDoesNotFit`).
* An upload reports success if and only if the response code reads as 0, since the code itself is compared with
  `ESP_OK` (`ChunkedUpload.Poster.SendFile`); a server's 200 is reported as a failure, although the whole body was
  delivered.
* The particulate-matter counter wraps: a poll fails if and only if the number of recent packets is a multiple of
  2^32 (`PmSensor.PollFailsIff`). A device that is polled does not collect that many.
* `main/wifi_manager.c:941` compares with 1 a result that is 0, 256 or -2, so a successful attempt starts the reconnect
  timer whatever its ping said (`WifiRetry.AttemptStartsTimer`). As long as no ping is answered the retry goes on
  (`WifiRetry.RetryGoesOn`), but an expiry while a ping branch releases its request is lost
  (`WifiRetry.ExpiryAtReleaseIsLost`).
* The path of the file uploaded is cut to 24 bytes, so the file is the one named if and only if its name has at most
  sixteen bytes (`ChunkedUpload.SourceIsNamedIff`); a name of seventeen is accepted, and the file of the shorter name
  goes out under it (`ChunkedUpload.LongNameSendsAnother`).

## Model

| member | source | states |
|---|---|---|
| WifiSafety.StepKeepsInv | main/wifi_manager.c:546-594 | Every statement of the task and every event handler, callback and request keeps the invariant that ties the event bits, the driver and the task's position and snapshot together. |
| WifiSafety.ReachableIsSafe | main/wifi_manager.c:845-1080 | In every reachable state WIFI_CONNECTED and STA_DISCONNECT are never both set, WIFI_CONNECTED is set exactly while the driver is up, HAVE_INTERNET implies it, the driver associates only while the task waits for the outcome, a connect call finds the driver idle and the loss bit clear, erasing finds it idle, the timeout branch is dead, and a task blocked at the head has no request pending. |
| WifiCredentials.ForgettingIsPermanent | main/wifi_manager.c:857-895 | From the erasure of a user disconnect until the next POST, RAM and flash stay (or are about to become) zero and the driver is given nothing but zeros, in every run. |
| WifiCredentials.FlashWriters | main/wifi_manager.c:257-298 | Flash changes at the two saves only, which store the RAM config; a registration only creates the namespace. |
| WifiCredentials.StoredConfigWasReached | main/wifi_manager.c:915-973 | In every run from start-up without a POST at a vulnerable position, flash holds its initial value, zeros, or a config with which the driver obtained an address. |
| WifiLatePost.LatePostIsStoredIff | main/wifi_manager.c:884-938 | After a POST of credentials never tried, some run without another POST stores them untried if and only if the POST came at a vulnerable position: before the save of a forget branch, or from the connect call on while the attempt can still succeed or has succeeded. |
| WifiLatePost.UntriedIsReachable | main/wifi_manager.c:916-938 | On a new device, any credentials but those of the first attempt can come to be stored untried. |
| WifiSuccess.SuccessfulAttempt | main/wifi_manager.c:928-956 | From the judgement that an attempt succeeded until the head wait next returns, in every run without a POST, with its ping test and timer going on: RAM is kept, the publishing statement reports its name with code 0, the save stores it, and flash holds it from then on. |
| WifiBranches.FailedAttempt | main/wifi_manager.c:957-984 | From the judgement that an attempt failed until the head wait next returns, in every run without a POST: flash is kept, RAM is the tried config until it is erased and zero from then on, the publishing statement reports the failure for the network tried, and five statements of the task end the branch. |
| WifiBranches.PingTestReloads | main/wifi_manager.c:1016-1028 | From the link query of a ping test without link until the head wait next returns, in every run without a POST: RAM becomes what flash holds (and stays as it is without a namespace), the status is cleared and the connection requested exactly when that SSID is not empty, and flash is kept. |
| WifiBranches.ForgetPublishes | main/wifi_manager.c:857-895 | In every run without a POST and without an answered ping, a forget branch drops the internet bit at once and publishes the empty name with code 2. |
| WifiRetry.ExpiryAsksForPing | main/wifi_manager.c:176-182 | An expiry of the timer requests a ping test, stops the timer, and makes a task that waits at the head begin an iteration with that request; nothing else changes. |
| WifiRetry.RequestAsksForPing | main/wifi_manager.c:1119-1123 | An asynchronous request does the same and leaves the timer alone. |
| WifiRetry.AnswerStopsTimer | main/wifi_manager.c:1085-1092 | An answered ping sets the internet bit alone, stops the timer, and ends a wait for it with that bit. |
| WifiRetry.NoAnswerAsksForConnection | main/wifi_manager.c:1093-1096 | A ping without answer clears the status, requests a connection and leaves the timer. |
| WifiRetry.RetryGoesOn | main/wifi_manager.c:1125-1158 | From the link query of a check with the link up, in every run in which no ping is answered: the old internet bit is cleared before the ping, the check yields nothing, and until the head wait next returns the timer runs unless it has expired meanwhile, in which case after a connect branch its request is still set. |
| WifiRetry.ExpiryAtReleaseIsLost | main/wifi_manager.c:1028 | An expiry just before a ping branch releases its request leaves neither timer nor request. |
| WifiRetry.AttemptStartsTimer | main/wifi_manager.c:941-956 | In every reachable state a check's result is 0, 256 or -2, and after a successful attempt each of them starts the timer. |
| WifiRetry.ServesFirstRequest | main/wifi_manager.c:896-1028 | In every run an iteration, once dispatched, stays in the branch of the first request of its snapshot, in the order connect, scan, ping, until the head wait next returns. |
| WifiRequests.ScanRequestAsks | main/wifi_manager.c:156-158 | A scan request sets its bit alone, and a task that waits at the head takes it up. |
| WifiRequests.ForgetRequestAsks | main/wifi_manager.c:159-161 | The same for a request to forget. |
| WifiRequests.LossAsksIff | main/wifi_manager.c:572-588 | A loss requests a connection except for the three reasons named, and leaves the word with the loss and without link and internet. |
| WifiRequests.AddressReports | main/wifi_manager.c:565-568 | An address sets the link's bit and ends a wait for the outcome with it; configs, status and timer stay. |
| WifiRequests.RegistrationCreatesNamespace | main/wifi_manager.c:198-226 | Saving a registration makes an absent namespace one without credentials and touches nothing else. |
| WifiRequests.ReconnectIsNeverRequested | main/wifi_manager.c:580 | REQUEST_RECONNECT is clear in every reachable state. |
| WifiRequests.BootRequests | main/wifi_manager.c:743-842 | Start-up requests a scan, and a connection iff flash holds a non-empty SSID. |
| WifiRequests.StartsQuietly | main/wifi_manager.c:743-751 | Without an SSID in flash, in every run without a POST and without an unanswered ping, no connection is requested or tried and the driver is given nothing. |
| WifiOutcome.NoFalseOutcome | main/wifi_manager.c:896-974 | After a POST at the loop head the status stays `{}` until the outcome; the first document then carries the name printed for the posted config, which was the one given to the driver, with code 0 iff the wait returned connected, in which case that config did obtain an address. |
| WifiClient.PosterSeesOutcome | main/code.js:390-411 | After a POST at the loop head, what a client parses from the served document is `{}` until the outcome, and then the object with the printed name, code 0 and the link's addresses if the wait returned connected, and code 1 and zero addresses otherwise. |
| WifiClient.ForgetIsSeen | main/wifi_manager.c:857-895 | What a client parses after a forget branch has published is the object with an empty name, zero addresses and code 2, in every run without a POST and without an answered ping. |
| WifiPosts.FirstReportIsOwnIff | main/wifi_manager.c:600-612 | Wherever the task is when a POST comes: in every run without another POST the first document is the outcome of an attempt with the posted config, if and only if the task waits at the head, is on its way to an outcome of that config, or is bound for a wait that never returns. |
| WifiPosts.RequestIsServedIff | main/wifi_manager.c:896-985 | A request for a connection gets the config in RAM to the driver before it can be released, in every run, if and only if no attempt is being made already. |
| WifiConfig.PrintedNameIsRead | main/wifi_manager.c:453 | The C string that starts where the SSID does is the SSID, or with an SSID of 32 bytes the SSID and the password, and it ends within the structure. |
| WifiConfig.NamesSsidIff | main/wifi_manager.c:453 | It is the SSID if and only if the SSID has fewer than 32 bytes or there is no password. |
| WifiConfig.PrintedNameTellsSsid | main/wifi_manager.c:453 | Two configs printed under one name have the same SSID. |
| WifiProgress.RequestsReleasedByOwnBranch | main/wifi_manager.c:857-1028 | No step clears a request bit except the task at the end of that request's own branch. |
| WifiProgress.TaskProgress | main/wifi_manager.c:845-1080 | Every statement of an unblocked task moves it closer to being blocked, and no iteration ends without having cleared a request. |
| WifiProgress.RequestsDrain | main/wifi_manager.c:845-1028 | While nothing new is requested, the weight 2 PING + CONNECT + SCAN + DISCONNECT falls in every iteration, so there are at most five; the task blocks within a bounded number of statements, and at the head only with no request left. |
| WifiStranded.StrandedForever | main/wifi_manager.c:866-875 | A wait for the link to drop, with the driver idle, never returns in any run. |
| WifiStranded.DropWaitReturnsIffUp | main/wifi_manager.c:901-909 | Some run ends that wait if and only if the driver is still up. |
| WifiStranded.LossAtHeadStrandsReconnect | main/wifi_manager.c:572-588 | After a loss with a reconnect reason, handled while the task waits at the head, no run gives the driver a config or connects. |
| WifiStranded.ReconnectProceedsIffUp | main/wifi_manager.c:901-916 | A task about to drop the old link gets to give the driver its new config in some run if and only if the driver is up. |
| WifiStranded.ConnectsIff | main/wifi_manager.c:857-916 | An iteration that begins with a request to connect can come to its connect call if and only if its snapshot has no link, or the link is still up and there is no request to forget. |
| WifiStranded.ErasesIff | main/wifi_manager.c:857-886 | An iteration that begins with a request to forget can come to erase the credentials if and only if its snapshot has no link, or the link is still up. |
| WifiStranded.StrandingIsReachable | main/wifi_manager.c:572-588 | With a network in flash, some run from start-up ends in a state from which no run connects again. |
| WifiStranded.MissedErasureIsReachable | main/wifi_manager.c:857-886 | Some run from start-up has the task begin an iteration with a request to forget that never comes to erase the credentials. |
| WifiStranded.BothRequestsAreReachable | main/wifi_manager.c:857-916 | Some run from start-up has the task begin an iteration with the link up and both requests, from which it cannot come to its connect call. |
| WifiRuns.RestsConnected | main/wifi_manager.c:845-1080 | With a network in flash, some run from start-up has the task wait at the head with the link up. |
| WifiManager.Manager.constructor | main/wifi_manager.c:711-751 | Start-up fetches flash and requests a connection iff an SSID is stored. |
| WifiManager.Manager.SetBits | main/wifi_manager.c:581-584 | xEventGroupSetBits releases a task waiting for one of the bits, with the word at that call; that is the protocol's wake. |
| WifiManager.Manager.FetchStaConfig | main/wifi_manager.c:340-410 | Flash goes to RAM, zeros if the namespace has no credentials, nothing if it is absent; found iff an SSID is stored. |
| WifiManager.Manager.ConnectAsync | main/wifi_manager.c:600-612 | The status is cleared and a connection requested. |
| WifiManager.Manager.GotIp | main/wifi_manager.c:565-568 | The handler's two calls in order, as one transition. |
| WifiManager.Manager.Disconnected | main/wifi_manager.c:572-588 | The handler's four calls in order, as one transition. |
| WifiManager.Manager.PingResults | main/wifi_manager.c:1085-1100 | The ping callback as one transition. |
| WifiManager.Manager.PostConnect | main/http_server_if.c:248-258 | A POST is the run of its three accesses to shared state. |
| WifiManager.Manager.ConnectRequest | main/http_server_if.c:240-267 | A request stores the credentials it delivers and requests a connection, or changes nothing; nothing is said if reading it leads beyond what was received. |
| WifiManager.Manager.WaitBits | main/wifi_manager.c:848-854 | A wait returns, with everything else going on meanwhile, the word at the call that released it, or the schedule ends. |
| WifiManager.Manager.Handle | main/wifi_manager.c:546-594 | Any event makes the protocol's transition, and ends the task's wait exactly when the protocol does. |
| WifiManager.Manager.CheckConnection | main/wifi_manager.c:1125-1158 | Along any schedule the check returns the ping bit or that there is no link, at the statement where the protocol has that result. |
| WifiManager.Manager.Disconnect | main/wifi_manager.c:857-895 | Along any schedule the forget branch, with its wait, stays on the protocol's run and ends at the dispatch with its snapshot unchanged. |
| WifiManager.Manager.Connect | main/wifi_manager.c:896-985 | The same for the connect branch, with its two waits and its outcome. |
| WifiManager.Manager.Iteration | main/wifi_manager.c:845-1080 | One iteration of the loop stays on the protocol's run and is back at the head wait, or the schedule ends within it. |
| WifiManager.Manager.Serve | main/wifi_manager.c:845-1080 | The endless loop, followed to the end of any schedule, ends in the state that the protocol's run of it ends in. |
| WifiManager.ServeFromBoot | main/wifi_manager.c:698-1080 | The same from start-up, so every theorem about runs is one about the program. |
| HttpHeader.GetHeader | main/http_server_if.c:125-141 | The value returned is the rest of the line behind the first occurrence of the name, none iff the name does not occur; out of bounds exactly when no NUL ends the text and the name or the end of its line is missing. |
| HttpHeader.ReadPost | main/http_server_if.c:240-261 | Any received bytes: accepted iff both headers are there and fit, and then exactly their values are stored. |
| HttpHeader.PostedFits | main/http_server_if.c:248-252 | What is stored fits its two fields and holds no NUL. |
| HttpHeader.PostDelivers | main/http_server_if.c:245-254 | What the browser's request (main/code.js:214), spelt out, stores for every SSID and password of one line, any headers before and any text after; 32 and 64 bytes fit. |
| HttpHeader.StoredAsSentIff | main/http_server_if.c:245-254 | The credentials stored are those sent iff they have at most 32 and 64 bytes and the SSID does not shadow the password. |
| HttpHeader.ShadowingSsid | main/http_server_if.c:245-254 | An SSID of fifteen bytes with which no other password is stored. |
| ApFilter.FilterUnique | main/wifi_manager.c:646-696 | In place, the list becomes the unique list followed by the left-over records; the length returned is that of the unique list; nothing behind the list changes. |
| ApFilter.MergeAll | main/wifi_manager.c:653-670 | The double loop raises each first occurrence to its network's maximum and clears the later ones. |
| ApFilter.Compact | main/wifi_manager.c:672-692 | The moving free slot compacts the named records stably. |
| ApFilter.EveryNetworkIsListed | main/wifi_manager.c:646-696 | For every named record of the scan the result has one with its SSID and authmode. |
| ApFilter.NetworksAreDistinct | main/wifi_manager.c:660-669 | Two records of the result differ in SSID or authmode. |
| ApFilter.RecordsAreFirstOccurrences | main/wifi_manager.c:660-669 | A record of the result is, but for the signal, the first one with its SSID and authmode, in the order of the scan. |
| ApFilter.SignalIsStrongest | main/wifi_manager.c:664-665 | The signal is at least that of every record with its SSID and authmode, and that of one of them. |
| ApFilter.FilterIsIdempotent | main/wifi_manager.c:646-696 | Filtering twice is filtering once. |
| ApFilter.OrderIsKept | main/wifi_manager.c:672-692 | A list sorted by signal stays sorted. |
| ApFilter.TailIsZeroIff | main/wifi_manager.c:672-692 | Behind as many slots as the scan has networks everything is zero iff every nameless non-zero record lay before them. |
| ApFilter.HiddenNetworkStays | main/wifi_manager.c:675-680 | A hidden network behind a named one is still there. |
| JsonString.CountEscapes | main/json.c:62-76 | The first pass counts exactly the bytes of the escaped text. |
| JsonString.WriteEscapes | main/json.c:93-137 | The second pass writes exactly the escaped text and touches nothing beyond one byte behind it. |
| JsonString.JsonPrintString | main/json.c:35-142 | On both paths the buffer holds the quoted text and a NUL, and no other byte changes; refused iff input or output is missing. |
| JsonString.EscapeRoundTrip | main/json.c:93-139 | Decoding the printed string gives back every byte string. |
| JsonString.PrinterIsInjective | main/json.c:35-142 | Two texts printed alike are the same text. |
| JsonString.EscapeHasNoControls | main/json.c:98-134 | No control byte is printed raw. |
| JsonString.PlainTextIsKept | main/json.c:82-91 | Where nothing needs escaping, the copying path and the escaping path agree. |
| JsonParser.IntRoundTrip | main/wifi_manager.c:497 | Every printed integer, negative ones included, is read back. |
| JsonParser.ObjectRoundTrip | main/wifi_manager.c:497 | A printed flat object is read back with the same names and values in order, whatever follows. |
| ApDocument.GenerateAccessPointsJson | main/wifi_manager.c:492-520 | For any list: it stays in the buffer iff the document is shorter than the buffer, and then the buffer holds the document, entry by entry, with its NUL. |
| ApDocument.TailFitsItsBuffer | main/wifi_manager.c:510-514 | No entry is truncated by its 99-byte buffer, for any C ints. |
| ApDocument.DocumentSize | main/wifi_manager.c:492-520 | The length is 1 + the sum over the records of 37 + escaped SSID + the printed numbers. |
| ApDocument.ListFitsIff | main/wifi_manager.c:706 | Exactly when a list fits the allocated buffer; fifteen records do if each escaped SSID has at most 54 bytes. |
| ApDocument.QuotedListDoesNotFit | main/include/wifi_manager.h:123-131 | Fifteen networks named by 32 quotes do not fit, whatever their numbers. |
| ApDocument.ListRoundTrip | main/wifi_manager.c:492-520 | Reading the document of a non-empty list returns, record by record in order, the object with its SSID, channel, signal and authmode under the names ssid, chan, rssi and auth. |
| ApDocument.ScannedNetworkIsServed | main/wifi_manager.c:1001-1002 | For every named network of a scan the list a client reads has an entry with its SSID and authmode and a signal at least as strong. |
| StatusDocument.GenerateIpInfoJson | main/wifi_manager.c:442-486 | For any config: it stays in the buffer iff the document of the name printed is shorter than 150 bytes, and then the buffer holds it, with addresses only after a success. |
| StatusDocument.StatusRoundTrip | main/wifi_manager.c:447-482 | Reading the status returns the object with the name printed, the addresses if the code is 0 and zeros otherwise, and the code. |
| StatusDocument.DottedRoundTrip | main/wifi_manager.c:455-470 | A printed address is read back as its four numbers in order. |
| StatusDocument.ClientReadsStatus | main/wifi_manager.c:438-486 | A client reads an empty object exactly while the protocol's status is cleared, and otherwise the printed name and the code it reports. |
| StatusDocument.ServedIsInjective | main/wifi_manager.c:438-486 | Two statuses served alike have the same printed name and the same code. |
| StatusDocument.StatusFitsIff | main/wifi_manager.c:447-482 | For any config the exact length, and that the document fits iff 49 + escaped printed name + address lengths is below 150. |
| StatusDocument.QuotedStatusDoesNotFit | main/include/wifi_manager.h:133-138 | With 32 quotes, no password and three addresses of fifteen characters the document has 158 bytes. |
| StatusDocument.FullSsidDoesNotFit | main/wifi_manager.c:453 | With a plain SSID of 32 bytes, a plain password of 63 and such addresses it has 189. |
| ChunkedCoding.EncodeRoundTrip | main/http_file_upload.c:347-385 | Decoding the coded chunks gives back their concatenation and leaves what follows. |
| ChunkedCoding.CutBodyIsIncomplete | main/http_file_upload.c:347-385 | No proper beginning of a coded body decodes to a body. |
| ChunkedUpload.Poster.SetChunkSize | main/http_file_upload.c:98-148 | Accepted iff the heap has the minimum; then minimum <= CHUNK_SZ <= heap, CHUNK_DATA_SZ is three less, and the size is the one requested where that is possible. |
| ChunkedUpload.Poster.Init | main/http_file_upload.c:150-203 | Each return, out of memory included, under its exact condition; when ready, the buffers have their sizes and the header fits. |
| ChunkedUpload.Poster.WriteChunk | main/http_file_upload.c:347-385 | Two writes carry the chunk, and every byte written to the buffer lies inside it. |
| ChunkedUpload.Poster.WriteFileChunked | main/http_file_upload.c:307-345 | The loop writes the file's pieces and counts them; with bytes sent + flen = size throughout. |
| ChunkedUpload.Poster.WriteBodyCloser | main/http_file_upload.c:263-280 | The closing boundary, then the empty chunk. |
| ChunkedUpload.Poster.WriteBody | main/http_file_upload.c:282-305 | The whole plan is written, or its beginning up to the failed write; ok iff all of it. |
| ChunkedUpload.Poster.SendFile | main/http_file_upload.c:445-469 | If there is a connection, the file opens and every write goes out, the body on the wire decodes to header, file and closing boundary, whatever the server answers; otherwise what is on the wire decodes to no body. Success iff the former and the response code is 0. |
| ChunkedUpload.Poster.UploadFile | main/http_file_upload.c:429-470 | Success iff the name has at most 17 bytes, the file is there and not empty, the heap has 175 bytes and the allocator grants, there is a connection, the file opens, every write goes out and the response code is 0; with all of that but the code, the file's body is delivered. A missing and an empty file are told apart under their exact conditions; in every case nothing was sent, or what was sent decodes to no body, or to the file the card holds. |
| ChunkedUpload.PiecesAreTheFile | main/http_file_upload.c:319-342 | The pieces are not empty and concatenate to the file. |
| ChunkedUpload.PieceCount | main/http_file_upload.c:319-342 | There are exactly ceil(size / CHUNK_DATA_SZ) of them. |
| ChunkedUpload.SizeLineFits | main/http_file_upload.c:358-370 | Every 32-bit size line fits its 16-byte buffer. |
| ChunkedUpload.UploadDecodes | main/http_file_upload.c:263-385 | A successful upload decodes to header, file and closing boundary, with nothing left over. |
| ChunkedUpload.FailedUploadIsIncomplete | main/http_file_upload.c:263-385 | Fewer writes put a proper beginning on the wire that decodes to nothing. |
| MultipartText.BoundaryIsNamed | main/http_file_upload.c:35-54 | The boundary that the request names, read behind `boundary=`, is the one that header and closer use. |
| MultipartText.BoundaryIsUsed | main/http_file_upload.c:56-60 | The part header begins with that boundary's line, and the closer is that boundary with its dashes. |
| MultipartText.NameIsReadIff | main/http_file_upload.c:56-60 | The destination name is read back from the part header iff it holds no quote. |
| ChunkedUpload.SourceIsNamedIff | main/http_file_upload.c:160 | The path is /sdcard/ and the name iff the name has at most sixteen bytes, and otherwise with its first sixteen. |
| ChunkedUpload.LongNameSendsAnother | main/http_file_upload.c:160-168 | A name of seventeen bytes finds the file of its first sixteen, which goes out under the whole name. |
| NmeaRoundTrip.GgaRoundTrip | main/gps_if.c:194-279 | For every printed GGA sentence the time, both coordinates with hemisphere (N, S, E, W) and the altitude are read as printed; empty position fields are read as zero. |
| NmeaRoundTrip.RmcRoundTrip | main/gps_if.c:281-380 | For every printed RMC sentence, with status A or V, the time and the date are read as printed, an empty date as zeros, with or without a position. |
| NmeaRoundTrip.GgaLineIsTaken | main/gps_if.c:157-279 | The same for whole lines, altitudes in tenths, whatever the checksum says. |
| NmeaRoundTrip.RmcLineIsTaken | main/gps_if.c:281-380 | The same for RMC lines that do not contain the other sentence's name. |
| NmeaRefusal.GgaIsRefusedIff | main/gps_if.c:223-279 | A GGA sentence whose coordinates have their length is refused iff a hemisphere is another letter, and read iff none is and it has twelve fields. |
| NmeaRefusal.RmcIsRefusedIff | main/gps_if.c:292-380 | An RMC sentence is refused iff its status is not A or V or a hemisphere is another letter, and read iff neither and it has ten fields. |
| NmeaRefusal.ChecksumDecides | main/gps_if.c:177-190 | With a star and two upper-case hexadecimal digits where they are looked for, the sentence is read for its fields iff they state the exclusive or of the bytes from the third one on. |
| NmeaRoundTrip.CombineIsSum | main/gps_if.c:217-220 | In exact arithmetic the floating-point route equals degree + minutes in fixed point. |
| NmeaRoundTrip.AngleIsFixed | main/gps_if.c:205-221 | A printed coordinate is read as its degrees and minutes in fixed point, and the cursor stays in its field. |
| NmeaRoundTrip.ArcIsFixed | main/gps_if.c:217-225 | The angle kept is the fixed-point value in degrees, with the sign of its hemisphere. |
| NmeaRoundTrip.FixedIsClose | main/gps_if.c:211-217 | The value is below the true coordinate by less than 1e-7 degrees and fits 32 bits. |
| NmeaRoundTrip.FixedIsMonotone | main/gps_if.c:211-217 | Coordinates are read in their order, strictly. |
| NmeaRoundTrip.LineEndHidesChecksum | main/gps_if.c:177 | In a line that ends with CR and LF, unless its first checksum digit is a star, the checksum is not examined. |
| NmeaRoundTrip.StandardChecksumIsRefused | main/gps_if.c:177-189 | Where the checksum is examined, a sentence right by NMEA 0183 is refused, since the sum leaves out the second byte. |
| NmeaRoundTrip.OneByteChangeIsCaught | main/gps_if.c:177-189 | Where it is examined, any change of one covered byte is caught. |
| Nmea.ChecksumIsZeroSum | main/gps_if.c:178-185 | Starting from the stated checksum and looking for zero is comparing it with the sum. |
| Gps.PositionIsLatest | main/gps_if.c:271-276 | Over any run that stays in bounds, latitude, longitude and altitude are those of the last accepted GGA sentence. |
| Gps.DateIsLatest | main/gps_if.c:368-370 | Over any such run the date is that of the last accepted RMC sentence. |
| Gps.TimeIsLatest | main/gps_if.c:271-276 | Over any such run the time is that of the last accepted sentence of either kind. |
| Gps.NothingStated | main/gps_if.c:36-46 | Over any such run, what no accepted sentence stated is as it was at the start. |
| Gps.ReadAngle | main/gps_if.c:205-221 | The cursor block reads through its ten-byte buffer what the specification reads from the text. |
| Gps.ReadPosition | main/gps_if.c:204-254 | Both angles and hemispheres, with every early return. |
| Gps.ChecksumMatches | main/gps_if.c:178-185 | The loop decides whether the stated checksum is the exclusive or of the bytes. |
| Gps.Receiver.ParseGga | main/gps_if.c:194-279 | State changes only when the whole sentence is read, and then to what it states. |
| Gps.Receiver.ParseRmc | main/gps_if.c:281-380 | The same for RMC. |
| Gps.Receiver.Parse | main/gps_if.c:157-383 | One sentence updates the state as the specification says; a rejected one leaves it alone. |
| Gps.Receiver.ParseAll | main/gps_if.c:157-383 | Sentences one after the other leave the state that the run of their outcomes states, unless one leads out of bounds. |
| Gps.Listen | main/gps_if.c:404-415 | A poll after any run that stays in bounds returns what the run stated. |
| PmSensor.OneByteChangeIsRejected | main/pm_if.c:254-256 | A valid packet with any one byte changed is not accepted. |
| PmSensor.AcceptedMeans | main/pm_if.c:254-256 | A packet is 24 bytes, begins with BM, and ends with the sum of the 22 bytes before. |
| PmSensor.TotalIsSum | main/pm_if.c:257-259 | The sums of a run of packets are those of the words in bytes 4 and 5, 6 and 7, 8 and 9, for PM1, PM2.5 and PM10. |
| PmSensor.StateIsHistory | main/pm_if.c:254-266 | Over any run of packets, timeouts and polls, sums and count are those of the valid packets since the last timeout or successful poll, and packets only wait while the timer runs. |
| PmSensor.PollIsMean | main/pm_if.c:145-161 | A poll fails iff no packet is recent; otherwise each value times their number is the sum of what they state in bytes 4 and 5 (PM1), 6 and 7 (PM2.5), 8 and 9 (PM10). |
| PmSensor.PollFailsIff | main/pm_if.c:147-152 | With a counter that wraps, a poll fails iff their number is a multiple of 2^32. |
| PmSensor.Sensor.Checksum | main/pm_if.c:321-334 | The 16-bit sum never wraps, so it is compared as the true sum. |
| PmSensor.Sensor.GetPacketFromBuffer | main/pm_if.c:254-266 | The packet is added iff it is valid, byte pair by byte pair to its sum, and the timer is restarted. |
| PmSensor.Sensor.UartData | main/pm_if.c:202-209 | Only 24 bytes at once are looked at. |
| PmSensor.Sensor.TimerCallback | main/pm_if.c:54-59 | A timeout stops the timer and drops the sums. |
| PmSensor.Sensor.PollReading | main/pm_if.c:145-161 | A poll reports the mean and starts over, or reports -1 and fails. |

## Left out

WiFi manager:

- Event handlers, callbacks, the timer callback and the clearing of a structure are one step each; NVS operations succeed; power is not lost.
- WifiManager.Manager.PostConnect: the request is handled here without interruption; in the protocol and in a schedule its three accesses interleave.
- The driver reports an address or a loss only while it is associating or up; a ping is answered only over a live link; the HTTP server handles one request at a time.
- The `wifi_settings` blob, the LED task, the JSON mutex and the contents of the access-point list are not part of the protocol state.
- Config structures are their two texts. That the SSID's 32 bytes and the password's 64 lie side by side, with zeros behind, is the layout of the vendor's structure, which is not part of this model's sources.
- StatusDocument.ClientReadsStatus: about documents that fit their buffer.
- WifiProgress.RequestsDrain: it bounds the statements and iterations of a run; that the waits of lines 872 and 909 return is claimed only where it holds, in WifiStranded.
- Real time: timers may expire at any moment while active, and bounded waits may end at any moment.
- The `register.json` branch, the other routes and the splitting of the request line.
- HttpHeader.ReadPost: main/http_server_if.c:155-159 does not add a NUL to what it received. A request whose headers all end within it is read without one; otherwise the reader passes the end, and the outcome BeyondRequest promises nothing.

Documents:

- ApDocument.ListRoundTrip: the empty list is printed as a single `[` and is not claimed to be readable.
- ApDocument.GenerateAccessPointsJson: where the source writes beyond the buffer, which it does not check, the model stops and says so; what the write destroys is not modelled.
- StatusDocument.GenerateIpInfoJson: the same.
- ApFilter.FilterUnique: `esp_wifi_deinit` at its end is a driver call; the record fields it only copies are one opaque number.
- The reader covers integers, strings, arrays and objects; surrogate pairs, fractions, exponents and the other literals are not in what the firmware prints.

Upload:

- Name look-up, connecting and clean-up; the server's response is the code that is read from it.
- The multipart syntax inside the body: the closing boundary follows the file without a line break, so the claim is made at the chunked layer.
- ChunkedUpload.Poster.Write: a write sends all its bytes or fails without sending; partial writes are not modelled.
- ChunkedUpload.Poster.ReadPiece: fread delivers what was asked for or what is left, and the file does not change between stat and the last read.
- ChunkedUpload.Poster.Init: the largest free block does not change while it runs; an allocator that cannot meet a request fails.

Sensors:

- Rounding of floating-point numbers: sums, means, angles and altitudes are real numbers.
- Gps.Receiver.Parse: where a sentence has too few commas, fewer than four bytes, or a checksum behind byte 259, the source leaves its buffer or never returns; the outcome is then OutOfBounds and nothing is said about the state.
- Out-of-range conversions to integers are undefined in C and wrap here; exponents are not read by the decimal reader.
- Gps.Receiver.Parse: a bad checksum and a rejected sentence are different outcomes here; the source returns success for the first.
- The clock bit set for years below 80, the fields that are parsed and never stored, and the UART task around the parser.
- PmSensor.Sensor.PollReading: a poll and the handling of a packet do not interleave.
- `get_data_from_packet`, which has no caller.

Not modelled at all: driver set-up, GPIO, I2C, ADC, LEDs, SNTP, MQTT, OTA updates, SD log rotation, and the browser's side.
