# Verification model of the HTTP and WebSocket client module

The module modelled here is a Windows HTTP client (sockets, Schannel TLS, SOCKS5, chunked responses) with
a vendored copy of WebSocket++. The project models its protocol and buffering code in Dafny and proves what
that code is for: what every interleaving and every run keeps, that buffering and fragmentation do not change
the octets, that fast forms equal simple ones, and that parsers invert printers.

Check everything with `dafny verify dfyconfig.toml`.

| file | what it models |
|---|---|
| `WritePath.dfy`, `WriteSystem.dfy` | the send queue of a WebSocket connection: the locked regions of the source as methods, and every interleaving of them, of dispatches and of write completions as a step system |
| `Session.dfy`, `SessionRuns.dfy`, `CloseOrder.dfy`, `Queued.dfy`, `Transitions.dfy` | the connecting / open / closing / closed machine: every handler as a method, all runs of handlers and calls, the order of close frames (sections 5.5.1 and 7 of RFC 6455), what a run queues, and a table of what ends, opens and closes a connection with its timers and codes |
| `TlsStream.dfy` | the TLS read window and plaintext stash, and the splitting of sends into records |
| `Utf8.dfy` | the UTF-8 automaton against section 4 of RFC 3629 |
| `Masking.dfy`, `FrameHeader.dfy` | WebSocket masking and frame headers (sections 5.2 and 5.3 of RFC 6455) |
| `Md5.dfy`, `Md5Compression.dfy`, `Md5Transform.dfy`, `Md5TestSuite.dfy` | two streaming MD5 codes against sections 3.1 to 3.5 of RFC 1321, their two compression functions line by line, and a digest of section A.5 |
| `Text.dfy`, `Chunked.dfy`, `HttpResponse.dfy`, `HttpPrinted.dfy` | string helpers, the chunk decoder and the response loop (sections 6 and 7.1 of RFC 9112), and what it makes of responses written out octet by octet |
| `DerSan.dfy` | the certificate walk for subject alternative names (section 8.1 of X.690), and wildcard names |
| `BaseSock.dfy`, `Socks5.dfy`, `ProxyUrl.dfy`, `Dial.dfy` | socket timers, the SOCKS5 exchange and its deadline (RFC 1928, RFC 1929), the proxy URL, and the way of its credentials to the wire |
| `HttpParams.dfy`, `Base64.dfy` | HTTP parameter lists and the two base64 codecs (RFC 4648) |

How it is built. Code that changes state step by step is a class or a method with loops, and its `ensures` ties
the new state to a specification function or states the property outright; the main results are lemmas about
those functions over all inputs, runs or schedules. What lies outside the code (the processor, the message
pool, the network, Schannel, name resolution) answers through arguments or through a script that may say
anything the documentation of the foreign call allows.

What the specification functions themselves mean is tied down without them: the wire formats octet by octet with
numbers written out (`FrameHeader.FrameOnTheWire`, `HttpPrinted`, `Base64.AlphabetExactly`, `HttpParams.TokenCharsExactly`),
the state machines by tables of their events (`Queued`, `Transitions`), and the digests by the 64 lines of either source
and a published value (`Md5Transform`, `Md5TestSuite`).

Where the natural claim is false of the code, the code is kept and the exact condition is proved:

* A client whose extension negotiation fails terminates and then opens the connection all the same.
  `SessionRuns.ConsistentIffNoFallThrough` says that the shutdown count fits the state exactly on the runs where that
  never happens, and `BothHandlersIffFallThrough` that the open and the fail handler are both called exactly when it has
  happened and the first shutdown callback has run; `NegotiationFailureBreaksTheContract` is such a run.
* `send`, `ping` and `pong` check the state and push under two locks. `CloseOrder.GapDecidesOrder`: after a close
  frame the order can still be broken if and only if a thread stands between the two, and `GapIsReached` gets there.
* `MD5::update` guards its loop with a 32-bit sum. `Md5.NoWrapIsExact` gives the lengths for which the guard is right,
  `GuardWraps` a length for which it is not.
* `base64_encode` of misc/base64.cpp counts with an unsigned int: `Base64.LoopEndsExactly`, its loop ends if and only if
  there are fewer than 2^32 octets. `base64_decode` of base64.hpp counts with an int: `ReadableExactly` gives the
  lengths whose text it can count through.
* A comment says that the SOCKS5 deadline holds to within a second (socket/Dial.cpp:153-156). It does if and only if the
  deadline is a full second of the system clock (`Socks5.WithinASecondExactly`). In general the exchange ends before one
  second behind the first full second not before the deadline (`StepBudget.Handshake`), and that is exact:
  `DeadlineExactly`, and `SlowestProxy`, an exchange that ends in the nanosecond before, for any deadline.
* An empty TLS record makes `CSSLClient::Recv` return 0, which its caller takes for the end of the stream
  (`TlsStream.EmptyRecordReadsAsEnd`); without empty records 0 does mean the end (`ReadToEnd`).
* The walk for the subject alternative name tests the content of the optional BOOLEAN, not its tag.
  `DerSan.ExtractionInvertsEncoding`: the names come out if and only if the BOOLEAN is absent or its octet is 1, and
  DER writes TRUE as 255.
* A response without a body is refused if and only if it declares chunked coding (`HttpResponse.BodylessAndChunked`,
  `HttpPrinted.BodylessResponse`); `ChunkedHeadIsRefused` is an ordinary answer to HEAD.
* A quoted string comes back from its printed form if and only if it does not end in a backslash
  (`HttpParams.QuotedExactly`); a backslash that was itself escaped does not protect the quote behind it.

## Model

| member | source | states |
|---|---|---|
| WritePath.SendPath.WritePush | websocketpp/impl/connection_impl.hpp:2210-2225 | a message goes behind the queue and its payload into the size, modulo the width of size_t; an empty pointer changes nothing |
| WritePath.SendPath.WritePop | websocketpp/impl/connection_impl.hpp:2228-2248 | the head of the queue is returned and its payload leaves the size; nothing happens on an empty queue |
| WritePath.SendPath.Enqueue | websocketpp/impl/connection_impl.hpp:140-149 | the second locked region of send: push, and ask for a dispatch exactly if no writer is active |
| WritePath.SendPath.ClaimBatch | websocketpp/impl/connection_impl.hpp:1793-1828 | the first part of write_frame: unless a writer is active or nothing waits, everything up to and including the first terminal message is taken and the flag is set |
| WritePath.SendPath.FillSendBuffer | websocketpp/impl/connection_impl.hpp:1830-1837 | the buffers handed to async_write are two for each message of the batch, in order: at 2i its header, at 2i + 1 its payload |
| WritePath.SendPath.FinishWrite | websocketpp/impl/connection_impl.hpp:1895-1910 | whether the batch ended the connection (an error, or a terminal last message), and batch and buffers are cleared |
| WritePath.SendPath.ReleaseFlag | websocketpp/impl/connection_impl.hpp:1912-1927 | the flag is released and a dispatch is asked for exactly if messages wait |
| WritePath.UpToTerminalAt | websocketpp/impl/connection_impl.hpp:1812-1827 | a batch is the shortest prefix of the queue that ends in a terminal message, or all of it |
| WritePath.PayloadTotalIsLength | websocketpp/impl/connection_impl.hpp:2210-2248 | the size that the queue accounts for is the length of all its payloads joined |
| WriteSystem.NextKeepsInv | websocketpp/impl/connection_impl.hpp:1793-1928 | every step of every thread keeps the invariant: one writer, queue order, size, terminal message last, wake-up owed |
| WriteSystem.WritePathSafety | websocketpp/impl/connection_impl.hpp:1793-1928 | on every interleaving: what is written is a prefix of what was pushed, the wire has two buffers for each written message, at 2i its header and at 2i + 1 its payload, at most one async_write is outstanding, the size field is the payload total of the queue, a terminal message can only be the last one written |
| WriteSystem.NoEmptyBatch | websocketpp/impl/connection_impl.hpp:1889-1904 | handle_write_frame never finds an empty batch |
| WriteSystem.NoLostWakeUp | websocketpp/impl/connection_impl.hpp:140-149 | whenever messages wait, the flag is set or a dispatch is owed |
| WriteSystem.NothingAfterTheLastWrite | websocketpp/impl/connection_impl.hpp:1889-1928 | after a terminal message or a failed write no later step writes anything |
| WriteSystem.StepDoesWork | websocketpp/impl/connection_impl.hpp:1793-1928 | each step other than a push lowers a measure |
| WriteSystem.QueueDrains | websocketpp/impl/connection_impl.hpp:1793-1928 | left alone, the system stops within that measure, and once no step but a push is possible and no write has failed, it has written exactly the pushed messages up to the first terminal one |
| Session.Connection.constructor | websocketpp/connection.hpp:316-330 | a new connection is connecting, with no handler called and nothing queued |
| Session.Connection.Terminate | websocketpp/impl/connection_impl.hpp:1698-1748 | terminate: timer, reason, state, and one async_shutdown bound to fail or close, or none if closed already |
| Session.Connection.HandleTerminate | websocketpp/impl/connection_impl.hpp:1751-1790 | the fail or the close handler is called once, the fail handler not after a plain HTTP exchange |
| Session.Connection.Start | websocketpp/impl/connection_impl.hpp:716-737 | start is accepted in the first internal state only |
| Session.Connection.HandleTransportInit | websocketpp/impl/connection_impl.hpp:740-771 | the internal state after transport set-up for server and client, and the open timer |
| Session.Connection.EnterHandshakeHandler | websocketpp/impl/connection_impl.hpp:1546-1585 | the guard the four handshake handlers share: proceed, return at once, or terminate, by error, state and internal state |
| Session.Connection.HandleReadHandshake | websocketpp/impl/connection_impl.hpp:804-946 | each way a server's handshake read can end |
| Session.Connection.CallHttpHandler | websocketpp/impl/connection_impl.hpp:1192-1198 | the HTTP handler may defer its response or terminate the connection, and then no response is written |
| Session.Connection.WriteHttpResponseError | websocketpp/impl/connection_impl.hpp:949-962 | the error response is written from one internal state only |
| Session.Connection.WriteHttpResponse | websocketpp/impl/connection_impl.hpp:1296-1348 | which error code the response leaves behind |
| Session.Connection.HandleWriteHttpResponse | websocketpp/impl/connection_impl.hpp:1351-1431 | the server opens exactly after a switching-protocols response, otherwise terminates |
| Session.Connection.HandleSendHttpRequest | websocketpp/impl/connection_impl.hpp:1493-1543 | the client goes on to read the response |
| Session.Connection.HandleReadHttpResponse | websocketpp/impl/connection_impl.hpp:1546-1663 | the client's side, with the fall-through after a failed negotiation |
| Session.Connection.HandleOpenHandshakeTimeout | websocketpp/impl/connection_impl.hpp:1666-1679 | a timer that fired terminates, an aborted one does nothing |
| Session.Connection.HandleCloseHandshakeTimeout | websocketpp/impl/connection_impl.hpp:1682-1695 | the same for the closing handshake |
| Session.Connection.SendCloseFrame | websocketpp/impl/connection_impl.hpp:2065-2158 | the close code on the wire, the closing state, the clean flag for an acknowledgement, the timer, and one close message |
| Session.Connection.Close | websocketpp/impl/connection_impl.hpp:304-323 | close is refused unless open, and is terminal for the codes that end the connection |
| Session.Connection.SendFrame | websocketpp/impl/connection_impl.hpp:104-152 | send, ping and pong queue one message with the prepared header and payload, and only then succeed, exactly if the state is open and the frame could be prepared |
| Session.Connection.HandleReadFrame | websocketpp/impl/connection_impl.hpp:965-1015 | which read errors terminate, by state and side |
| Session.Connection.HandleConsumeError | websocketpp/impl/connection_impl.hpp:1058-1077 | a protocol error drops the connection or starts a close |
| Session.Connection.ProcessPing | websocketpp/impl/connection_impl.hpp:1948-1969 | a ping is answered by queueing the prepared pong exactly when open and a reply is wanted |
| Session.Connection.ProcessClose | websocketpp/impl/connection_impl.hpp:1977-2049 | a received close frame: acknowledged when open, clean when it answers ours, server then terminates |
| Session.Connection.DeferHttpResponse | websocketpp/impl/connection_impl.hpp:661-683 | a deferred response stops the timer |
| Session.Connection.SendHttpResponse | websocketpp/impl/connection_impl.hpp:686-699 | a deferred response is sent once |
| SessionRuns.NextKeepsInv | websocketpp/impl/connection_impl.hpp:1351-1790 | every event except the fall-through keeps the link between state, shutdowns and handler calls |
| SessionRuns.RunKeepsInv | websocketpp/impl/connection_impl.hpp:1351-1790 | a whole run without the fall-through keeps that link and never lowers the state |
| SessionRuns.SessionSafety | websocketpp/connection.hpp:51-79 | on every run without it: open and fail handler never both, close handler at most once and only after open, at most one async_shutdown |
| SessionRuns.StateNeverMovesBack | websocketpp/impl/connection_impl.hpp:1698-1748 | from any reachable state on: open is never connecting again, closing only goes on to closed, closed is final |
| SessionRuns.EveryAttemptIsAnswered | websocketpp/impl/connection_impl.hpp:1751-1790 | once the shutdown callback has run, the user has been told of open and close, or of failure, or it was plain HTTP |
| SessionRuns.ConsistentIffNoFallThrough | websocketpp/impl/connection_impl.hpp:1619-1641 | the shutdown count fits the state at the end of a run if and only if no client fell through |
| SessionRuns.BothHandlersIffFallThrough | websocketpp/impl/connection_impl.hpp:1619-1641 | on every legal run: open and fail handler have both been called if and only if the run fell through and its first shutdown callback has run |
| SessionRuns.NegotiationFailureBreaksTheContract | websocketpp/impl/connection_impl.hpp:1619-1641 | a client run with open, fail and close handler called and two shutdowns |
| SessionRuns.NextIsSound | websocketpp/impl/connection_impl.hpp:716-1790 | every event of every legal run keeps what holds before or behind the fall-through |
| CloseOrder.NextKeepsClose | websocketpp/impl/connection_impl.hpp:1937-2158 | every event of every legal run keeps: clean means a close read and a close queued, closing means a close queued |
| CloseOrder.RunKeepsClose | websocketpp/impl/connection_impl.hpp:1937-2158 | every legal run keeps it, and with atomic calls, or once closing with no thread in the gap, the order of close frames |
| CloseOrder.CleanMeansBothCloses | websocketpp/impl/connection_impl.hpp:2020-2045 | a clean connection has met a close frame of the peer and queued one of its own |
| CloseOrder.CloseReceivedExactly | websocketpp/impl/connection_impl.hpp:1977-2049 | the run remembers a close frame just if one of its events was one |
| CloseOrder.OnlyClosesQueuedAfterClose | websocketpp/impl/connection_impl.hpp:304-323 | with atomic calls only close frames are queued behind a close frame |
| CloseOrder.OnlyClosesWrittenAfterClose | websocketpp/impl/connection_impl.hpp:1793-1928 | and so on the wire, for every interleaving of the write path |
| CloseOrder.GapDecidesOrder | websocketpp/impl/connection_impl.hpp:110-141 | on every legal run: the gap between the two locks of send decides, in both directions |
| CloseOrder.GapIsReached | websocketpp/impl/connection_impl.hpp:110-141 | a client and a server can come to stand in the gap behind a close frame, and the push then breaks the order |
| Queued.NextQueues | websocketpp/impl/connection_impl.hpp:104-323 | each event of a legal run queues exactly what the event, met in that state, asks for |
| Queued.QueuedIsAskedFor | websocketpp/impl/connection_impl.hpp:104-323 | conservation on every legal run: the messages queued are the prepared frames that were asked for while the state allowed it, in order, with header, payload, kind and terminal bit |
| Queued.WrittenIsAskedFor | websocketpp/impl/connection_impl.hpp:1793-1928 | and on the wire, on every interleaving of the write path: a prefix of those frames, header before payload |
| Transitions.NextMoves | websocketpp/impl/connection_impl.hpp:716-1790 | on every legal run an event leads to the state of the table, and one that ends the connection leaves its cause as the reason, code 1006, no timer, and one shutdown with the right status |
| Transitions.ClosedForACause | websocketpp/impl/connection_impl.hpp:1698-1748 | every legal run is closed at its end if and only if one of its events had a cause to end it |
| Transitions.NextLeaves | websocketpp/impl/connection_impl.hpp:716-2158 | what an event leaves of a connection not yet closed: the inner state, the timer, both close codes by their numbers, the clean flag |
| Transitions.NextAnswers | websocketpp/impl/connection_impl.hpp:661-1348 | and the plain HTTP side of it: whether a request went to the HTTP handler, how far its response has come, and the error code of the response that was written |
| Transitions.NextCalls | websocketpp/impl/connection_impl.hpp:1351-1790 | the handlers an event calls, in any state: open at the end of the opening handshake, fail or close at the callback of a shutdown by its status, fail not after a plain HTTP exchange |
| Transitions.WaitingIsTimed | websocketpp/impl/connection_impl.hpp:740-801 | on every run that puts nothing off: from the transport being up to the end of the opening handshake, and from a queued close frame to the end, the configured timer runs, and none while open |
| Transitions.SessionIsTimed | websocketpp/impl/connection_impl.hpp:740-801 | the same for every such run of a new connection |
| Transitions.RemoteCodeIsHeard | websocketpp/impl/connection_impl.hpp:1977-2049 | the remote close code is that of the last close frame met before the connection closed |
| TlsStream.SslClient.Recv | socket/SSLClient.cpp:150-190 | what is returned and what is pending make up what was pending; the stash first; a record in the window is delivered; an error or an end has a cause |
| TlsStream.SslClient.RecvPartialEncrypted | socket/SSLClient.cpp:193-377 | one record is received, decrypted and delivered, the overflow stashed, the extra ciphertext kept |
| TlsStream.SslClient.MakeRoom | socket/SSLClient.cpp:231-247 | the window stays in place when there is room behind it and is moved down otherwise, and holds the same octets; a full window leaves no room |
| TlsStream.SslClient.ReceiveMore | socket/SSLClient.cpp:248-272 | the window grows by exactly the octets received; a full window, which only a record longer than the buffer leaves, is an error without a receive |
| TlsStream.SslClient.DecryptWindow | socket/SSLClient.cpp:218-283 | one call of DecryptMessage takes the first record off the window or says it is incomplete |
| TlsStream.SslClient.DeliverPlaintext | socket/SSLClient.cpp:331-346 | the caller's part and the stash are the record's plaintext |
| TlsStream.SslClient.KeepExtra | socket/SSLClient.cpp:362-375 | the extra ciphertext becomes the window |
| TlsStream.ReceiveRun | socket/SSLClient.cpp:150-190 | whole runs: for any records, fragmentation, errors and buffer lengths the octets returned are a prefix of the plaintext and the rest is pending |
| TlsStream.ReadToEnd | main.cpp:499-514 | reading until 0 or an error: if no record is empty, 0 means that the session is over, and all its plaintext was returned unless the connection was closed under it |
| TlsStream.EmptyRecordReadsAsEnd | socket/SSLClient.cpp:331-377 | an empty record is returned as 0 while the session goes on |
| TlsStream.Sender.Send | socket/SSLClient.cpp:382-476 | all or an error: on success the records carry exactly the caller's octets, none longer than 16000 or the maximum of Schannel; no record for a null pointer or without encryption |
| TlsStream.NothingCut | socket/SSLClient.cpp:464-475 | Send does not look at the count the socket returns: all its records were taken whole exactly if none was cut short |
| Utf8.TableClass | websocketpp/utf8_validator.hpp:45-54 | the packed table's classes are the ranges of the standard |
| Utf8.TableSuccessor | websocketpp/utf8_validator.hpp:55-60 | the packed transitions are those of the automaton by class |
| Utf8.DecodeByte | websocketpp/utf8_validator.hpp:69-78 | one octet: table lookup and the code point so far |
| Utf8.Validator.Consume | websocketpp/utf8_validator.hpp:91-96 | false exactly when the octet is rejected |
| Utf8.Validator.Decode | websocketpp/utf8_validator.hpp:105-120 | false exactly when some octet is rejected; otherwise the state is that of all octets |
| Utf8.Validator.Complete | websocketpp/utf8_validator.hpp:124-126 | whether the input ended at a character boundary |
| Utf8.Validator.Reset | websocketpp/utf8_validator.hpp:129-132 | back to the initial state |
| Utf8.Validate | websocketpp/utf8_validator.hpp:143-149 | the whole string is validated |
| Utf8.RunMeetsResidual | websocketpp/utf8_validator.hpp:69-78 | from every state the automaton accepts exactly what completes a character and is well formed behind it |
| Utf8.AcceptsExactlyWellFormed | websocketpp/utf8_validator.hpp:46-78 | accepted if and only if well formed by section 4 of RFC 3629 |
| Utf8.SplitsAgree | websocketpp/utf8_validator.hpp:105-120 | decoding in any pieces is decoding the whole |
| Utf8.CodepointIsLastPoint | websocketpp/utf8_validator.hpp:69-78 | on return to the accept state the code point is the scalar value of the last character |
| Utf8.PointsDecode | websocketpp/utf8_validator.hpp:69-78 | the code points of well-formed text encode back to it |
| Utf8.EncodingsAreWellFormed | websocketpp/utf8_validator.hpp:143-149 | the encoding of any scalar values is accepted, and the code points reported on the way are those values |
| Masking.XorIsOctetwise | websocketpp/frame.hpp:702-717 | xor of two words is xor of their octets |
| Masking.PreparedKeyBits | websocketpp/frame.hpp:595-604 | the prepared key, a 64-bit word, is the four-octet key twice in memory |
| Masking.CircshiftKeyBits | websocketpp/frame.hpp:612-623 | the circular shift of the prepared key is a rotation of its octets, in both byte orders |
| Masking.ByteMask | websocketpp/frame.hpp:644-655 | octet by octet masking, in place or not |
| Masking.XorWordAt | websocketpp/frame.hpp:706-709 | loading a word, xoring it with the key and storing it masks its eight octets, in both byte orders |
| Masking.WordMaskExact | websocketpp/frame.hpp:702-717 | word by word it equals octet by octet masking |
| Masking.WordMaskCirc | websocketpp/frame.hpp:768-789 | one word-wise piece and the key for the next |
| Masking.ByteMaskCirc | websocketpp/frame.hpp:830-841 | one octet-wise piece and the key for the next |
| Masking.ChainIsMasked | websocketpp/frame.hpp:768-841 | any chain of both, the key a 64-bit word shifted from call to call in either byte order, masks the concatenation as one call would |
| Masking.MaskedTwice | websocketpp/frame.hpp:644-655 | masking twice is the identity |
| FrameHeader.BasicHeaderStruct.constructor | websocketpp/frame.hpp:194-228 | the octets built in place are those that FrameOnTheWire writes out |
| FrameHeader.BasicHeaderStruct.SetFin | websocketpp/frame.hpp:330-332 | the fin field is set, the others stay |
| FrameHeader.BasicHeaderStruct.SetRsv1 | websocketpp/frame.hpp:348-350 | the same for rsv1 |
| FrameHeader.BasicHeaderStruct.SetRsv2 | websocketpp/frame.hpp:366-368 | the same for rsv2 |
| FrameHeader.BasicHeaderStruct.SetRsv3 | websocketpp/frame.hpp:384-386 | the same for rsv3 |
| FrameHeader.BasicHeaderStruct.SetMasked | websocketpp/frame.hpp:411-413 | the same for the mask bit |
| FrameHeader.ExtendedHeaderStruct.constructor | websocketpp/frame.hpp:236-256 | size octets and key are copied in place, the rest is zero |
| FrameHeader.ExtendedHeaderStruct.Copy | websocketpp/frame.hpp:260-274 | the last octets of the size in network order, in the length its value needs; the rest stays |
| FrameHeader.SettersSetOneField | websocketpp/frame.hpp:321-431 | each setter changes its own field and no other |
| FrameHeader.FieldsDetermineHeader | websocketpp/frame.hpp:321-431 | the fields determine the two octets |
| FrameHeader.BasicRoundTrip | websocketpp/frame.hpp:194-222 | a built basic header reads back to its arguments |
| FrameHeader.SizeRoundTrip | websocketpp/frame.hpp:235-275 | every 64-bit size reads back |
| FrameHeader.HeaderIsMinimal | websocketpp/frame.hpp:445-460 | the shortest length form is used, and a header has at most 14 octets |
| FrameHeader.FrameRoundTrip | websocketpp/frame.hpp:489-585 | a prepared frame reads back to opcode, flags, size, key and payload, whatever follows |
| FrameHeader.FrameOnTheWire | websocketpp/frame.hpp:170-275 | every octet of a header as a number: flags and opcode, mask bit and length code 126 or 127, the size in none, two or eight octets with the most significant first, the key, the payload |
| FrameHeader.CopiedSize | websocketpp/frame.hpp:260-274 | the octets copied for a size write it, the most significant first |
| FrameHeader.StreamSplitsUniquely | websocketpp/frame.hpp:489-585 | a concatenation of frames splits in one way only |
| Md5.Md5Cpp.constructor | misc/md5.cpp:140-152 | init |
| Md5.Md5Cpp.Count | misc/md5.cpp:276-279 | the two-word counter holds the bits modulo 2^64 |
| Md5.Md5Cpp.Update | misc/md5.cpp:271-304 | the state is the fold of the whole blocks so far, the buffer holds the rest |
| Md5.Md5Cpp.FoldBlocks | misc/md5.cpp:293-295 | the loop over whole blocks, under its 32-bit guard |
| Md5.Md5Cpp.Finalize | misc/md5.cpp:318-350 | the digest of RFC 1321, once |
| Md5.NoWrapIsExact | misc/md5.cpp:294-294 | the lengths for which that guard tells the truth |
| Md5.GuardWraps | misc/md5.cpp:294-294 | one update of 2^32 - 1 octets: the guard asks for a block where 63 octets are left |
| Md5.PadLengthCpp | misc/md5.cpp:330-331 | this padding length is that of RFC 1321 |
| Md5.Md5Hpp.constructor | websocketpp/common/md5.hpp:349-355 | md5_init |
| Md5.Md5Hpp.Count | websocketpp/common/md5.hpp:366-369 | the other carry scheme holds the same counter |
| Md5.Md5Hpp.Append | websocketpp/common/md5.hpp:357-391 | the state is the fold of the whole blocks so far, the buffer holds the rest |
| Md5.Md5Hpp.Finish | websocketpp/common/md5.hpp:393-412 | the digest of RFC 1321 |
| Md5.PadLengthHpp | websocketpp/common/md5.hpp:407-407 | this padding length is the same, although the subtraction may wrap |
| Md5.CountAdds | misc/md5.cpp:276-279 | adding octets to a two-word bit counter with a carry |
| Md5.HashCpp | misc/md5.cpp:271-350 | for every way of cutting the message at which the guard is right, the digest is that of RFC 1321 |
| Md5.HashHpp | websocketpp/common/md5.hpp:357-412 | the same for the other code |
| Md5.DigestExactly | misc/md5.cpp:318-350 | the reference digest spelled out: 0x80, the fewest zeros, the length in bits in eight octets lowest first, and the blocks compressed one after the other from the front |
| Md5Compression.ConstantsAgree | websocketpp/common/md5.hpp:104-168 | the 64 constants written as complements are those of misc/md5.cpp |
| Md5Compression.JoinsAgree | misc/md5.cpp:157-162 | joining octets with or, or with a sum, gives the same word |
| Md5Compression.StepsAgree | misc/md5.cpp:181-256 | the 64 steps of either table, in either form of addition, do the same to a block, at every step |
| Md5Compression.Md5OfBoth | websocketpp/common/md5.hpp:170-412 | both codes give the same digest of every message, however each is fed within the guard |
| Md5Transform.Transform | misc/md5.cpp:181-262 | 64 assignments to four variables in place and four additions, each line with its own word, shift and constant, are the compression function of the specification |
| Md5Transform.Process | websocketpp/common/md5.hpp:170-347 | the same for the other code, with its own order of operations and its complemented constants |
| Md5TestSuite.AbcDigest | misc/md5.cpp:181-350 | the digest of abc is 900150983cd24fb0d6963f7d28e17f72, by either code |
| Text.FindExtends | main.cpp:396-398 | a separator that has been found stays the first one when more octets arrive |
| Text.TrimAscii | main.cpp:267-272 | the result neither begins nor ends with a blank |
| Text.TrimUndoesPadding | main.cpp:267-272 | trimming removes the blanks around a text and nothing else |
| Text.StoullOfDigits | main.cpp:405-406 | digits are read as the number they write, or are out of range |
| Chunked.HttpChunkDecoder.constructor | main.cpp:387-387 | a new decoder |
| Chunked.HttpChunkDecoder.Feed | main.cpp:389-421 | the limit on buffered octets, then every chunk that is complete; errors as the source raises them |
| Chunked.ChunkSize | main.cpp:399-411 | sizes never exceed the limit |
| Chunked.PlainSizes | main.cpp:399-411 | hexadecimal digits with blanks and an extension are read as the number they write |
| Chunked.DecodeSplits | main.cpp:389-421 | decoding what has arrived and then the rest is decoding all of it, errors included |
| Chunked.FragmentationDoesNotMatter | main.cpp:389-421 | any pieces give what the whole gives, unless the limit trips |
| Chunked.FeedTwice | main.cpp:389-421 | in any state feeding a and then b is feeding a + b below the limit |
| Chunked.DecodesEncoding | main.cpp:389-421 | exactly the encoded chunks are taken off the front |
| Chunked.DecodingInvertsEncoding | main.cpp:385-428 | for any pieces the chunks come out, and Complete is true exactly when the zero-size line has arrived |
| Chunked.HeldBack | main.cpp:389-393 | less than one line or one chunk is held back |
| Chunked.LimitDoesNotTrip | main.cpp:391-393 | the limit cannot trip when the longest size line or chunk and one more piece fit under it |
| Chunked.BufferLimitExactly | main.cpp:391-393 | while no line end has come, the limit trips exactly beyond 1 MiB more than the response may have |
| HttpResponse.ParseResponseHeaders | main.cpp:274-296 | the loop over header lines is the recursive specification |
| HttpResponse.AppendEach | main.cpp:491-497 | appending chunks one by one, up to the size limit |
| HttpResponse.TakeHeaders | main.cpp:523-533 | what is decided when the header block is complete; PrintedStart says what that is |
| HttpResponse.TakeOctets | main.cpp:536-547 | a turn with octets of the body, by framing |
| HttpResponse.OneTurn | main.cpp:501-549 | a turn of the loop |
| HttpResponse.ResolveHttpRequest | main.cpp:482-555 | the outcome of the loop for any receives, and that the emitted chunks make up the body; the lemmas of HttpPrinted say what comes out for written responses |
| HttpResponse.TurnGoes | main.cpp:501-549 | after each turn the variables say what the octets so far say, or no continuation can succeed |
| HttpResponse.TurnsGo | main.cpp:499-549 | the same after any receives, by induction over them, for any way of reading header blocks and size lines |
| HttpResponse.OutcomeIsReference | main.cpp:482-555 | the outcome depends only on the concatenated octets, unless a buffer limit trips |
| HttpResponse.OutcomeIsReferenceExactly | main.cpp:482-555 | when no limit can trip, it always does |
| HttpResponse.OutcomeIsExact | main.cpp:482-555 | the same for any way of reading header blocks and size lines |
| HttpResponse.EmittedIsBody | main.cpp:491-497 | at every point the emitted chunks are the body and the body is within the limit |
| HttpResponse.BodylessAndChunked | main.cpp:532-551 | a bodyless response is refused exactly if it declares chunked coding |
| HttpResponse.EncodedResponse | main.cpp:482-555 | an encoded chunked body under a limit it fits comes out whole, in any pieces and whatever is behind it |
| HttpResponse.ChunkedResponse | main.cpp:482-555 | a conforming chunked response comes out whole, in any pieces and whatever is behind it |
| HttpPrinted.PrintedHead | main.cpp:274-296 | a printed status line and field lines, names in any case and blanks around values, are read as they are; refused exactly if the version or the status is none of HTTP |
| HttpPrinted.PrintedEnds | main.cpp:518-522 | the header block ends at the first blank line and no earlier |
| HttpPrinted.NumeralReads | main.cpp:530-530 | what std::stoull makes of blanks, a sign, digits and a tail |
| HttpPrinted.EveryNumeral | main.cpp:530-530 | every text is of that form |
| HttpPrinted.PrintedStart | main.cpp:523-533 | the framing that is decided: chunked exactly if the first transfer-encoding field mentions it in any case, the length that the first content-length field writes, or its error, bodyless exactly for HEAD, 204 and 304 |
| HttpPrinted.LengthResponse | main.cpp:482-555 | a GET response with a content-length comes out whole, in any pieces, whatever follows |
| HttpPrinted.ShortResponse | main.cpp:551-555 | fewer octets than announced give no response |
| HttpPrinted.ResponseToTheEnd | main.cpp:482-555 | without a length the body is everything up to an orderly end within the limit, and otherwise there is none |
| HttpPrinted.RefusedHeading | main.cpp:523-533 | another version, a status that is not three digits or a length that is none give no response |
| HttpPrinted.BodylessResponse | main.cpp:532-551 | what answers HEAD or has status 204 or 304 has an empty body, and is refused exactly if it is chunked |
| HttpPrinted.HeaderLimitExactly | main.cpp:516-520 | before the blank line octets are kept up to exactly 1 MiB |
| HttpPrinted.NoBlankLineNoResponse | main.cpp:516-549 | a connection that ends before the blank line gives the limit, the socket error or the missing headers, in that order |
| HttpPrinted.PrintedChunkedResponse | main.cpp:482-555 | chunks with hexadecimal sizes of either case and extensions, then 0, come out as one body, in any pieces, with trailers behind |
| HttpPrinted.ChunkedHeadIsRefused | main.cpp:529-551 | an answer to HEAD with the field a GET would have: bodyless, chunked, refused as incomplete |
| DerSan.ReadTlv | socket/TlsVerify.cpp:179-200 | a successful read lies within its parent |
| DerSan.ReadTlvLoop | socket/TlsVerify.cpp:179-200 | the loop over length octets computes it |
| DerSan.IsOid | socket/TlsVerify.cpp:202-210 | a prefix test, in both directions |
| DerSan.ReadGeneralNames | socket/TlsVerify.cpp:223-247 | appends the names in order up to the first unreadable entry; the walk terminates |
| DerSan.ReadSanExtension | socket/TlsVerify.cpp:249-287 | the walk over the extensions |
| DerSan.ReadSanValue | socket/TlsVerify.cpp:266-278 | the value of the extension, with the BOOLEAN test as written |
| DerSan.ReadAltNames | socket/TlsVerify.cpp:293-330 | the walk over the certificate's fields |
| DerSan.ReadsEncoded | socket/TlsVerify.cpp:179-200 | any encoded element reads back, whatever follows |
| DerSan.RefusedExactly | socket/TlsVerify.cpp:179-200 | refused are exactly the indefinite form, more than four length octets, and lengths cut off or beyond the data |
| DerSan.ReadsSanValue | socket/TlsVerify.cpp:272-278 | the exact effect of the BOOLEAN test |
| DerSan.SkipsExtensions | socket/TlsVerify.cpp:256-283 | extensions with other identifiers are passed over |
| DerSan.ExtractionInvertsEncoding | socket/TlsVerify.cpp:293-330 | exactly the dNSName and iPAddress entries come out, in order, if and only if the extension is not marked critical with an octet other than 1 |
| DerSan.CriticalSanIsLost | socket/TlsVerify.cpp:272-274 | a certificate whose critical subjectAltName is not found |
| DerSan.NoSanNoNames | socket/TlsVerify.cpp:284-329 | without the extension nothing is found |
| DerSan.LongerOidIsTaken | socket/TlsVerify.cpp:202-267 | an identifier that only begins with that of subjectAltName is taken for it |
| DerSan.AsciiEqualsInsensitive | socket/TlsVerify.cpp:68-75 | equality of the low octets but for case, in both directions |
| DerSan.FoldedExactly | socket/TlsVerify.cpp:58-66 | ASCII characters are the same exactly if they differ at most in the case of a letter |
| DerSan.MatchesWildcard | socket/TlsVerify.cpp:80-90 | true exactly if the host is one left-most label and what the pattern has behind its star |
| DerSan.OneLabel | socket/TlsVerify.cpp:80-90 | for ASCII names: one label, a dot, the pattern's domain |
| BaseSock.Sock.Recv | socket/BaseSock.cpp:164-181 | the reads of the specification: data comes off the stream in order, at least MinLen unless the last read found the peer closed; an error leaves a suffix of the stream and has its cause; the call ends within the timer and a second |
| BaseSock.ReadsHaveRead | socket/BaseSock.cpp:164-181 | that, for any reads: order, the cause of a short result, of a timeout and of a failure, and the time bound |
| BaseSock.Sock.RecvPartial | socket/BaseSock.cpp:183-272 | one overlapped read and its wait, as the specification has it |
| BaseSock.Sock.Send | socket/BaseSock.cpp:275-294 | the writes of the specification: a prefix of the data reaches the wire; fewer octets than all are returned only if the peer takes nothing more; an error has its cause; the same time bound |
| BaseSock.WritesHaveWritten | socket/BaseSock.cpp:275-294 | that, for any writes |
| BaseSock.Sock.SendPartial | socket/BaseSock.cpp:297-355 | one overlapped write and its wait |
| BaseSock.Sock.SetTimeouts | socket/BaseSock.cpp:129-161 | a positive number of seconds is stored, INFINITE as the largest int, and any other number leaves the timers as they are |
| BaseSock.ReadHasRead | socket/BaseSock.cpp:192-271 | one read: it ends less than a second behind the end time, and times out only once that has come |
| Socks5.StepBudget.Arm | socket/Dial.cpp:157-162 | both timers get the rest of the budget in seconds, rounded up, and no more than the connect timeout rounded up; refused when the budget is spent |
| Socks5.StepBudget.SendAll | socket/Dial.cpp:165-174 | all octets or an error, in time |
| Socks5.StepReadsKept | socket/Dial.cpp:154-198 | what a receive armed with the rest of the budget reads, and that it ends in time |
| Socks5.StepBudget.RecvExact | socket/Dial.cpp:179-198 | exactly the octets asked for or an error, in time |
| Socks5.StepBudget.Handshake | socket/Dial.cpp:270-350 | the exchange sends and consumes what the specification says, errors included, and ends in time |
| Socks5.StepBudget.Negotiate | socket/Dial.cpp:288-301 | the method reply |
| Socks5.StepBudget.Authenticate | socket/Dial.cpp:300-321 | credentials and the verdict |
| Socks5.StepBudget.RequestConnect | socket/Dial.cpp:232-324 | the CONNECT request, or its error |
| Socks5.StepBudget.ReadConnectReply | socket/Dial.cpp:325-349 | the whole reply with its bound address |
| Socks5.ArmedInTime | socket/Dial.cpp:20-57 | rounding up, the floored clocks and the elapsed milliseconds carry no step beyond one second behind the first full second not before the deadline |
| Socks5.RemainingExactly | socket/Dial.cpp:47-57 | a step gets the connect timeout or the milliseconds begun of what is left of the total one, whichever is less, and nothing just when that is over |
| Socks5.LastEndBounds | socket/Dial.cpp:20-57 | that is from one to just under two seconds behind the deadline, and one exactly if the deadline is a full second |
| Socks5.StepEndsExactly | socket/Dial.cpp:157-198 | a receive ends before a time, whatever the network does, if and only if the time is not before its rounded end |
| Socks5.DeadlineExactly | socket/Dial.cpp:148-198 | all receives end before a time if and only if it is not before that bound |
| Socks5.WithinASecondExactly | socket/Dial.cpp:148-163 | the deadline holds to within a second if and only if it is a full second of the system clock |
| Socks5.TwoSecondsAreNeeded | socket/Dial.cpp:148-163 | a receive that times out at the bound but for two nanoseconds |
| Socks5.SlowProxy | socket/Dial.cpp:270-289 | whenever it begins, an exchange can end in the last nanosecond of its first receive |
| Socks5.SlowestProxy | socket/Dial.cpp:270-289 | for any deadline, an exchange that ends in the last nanosecond the bound allows |
| Socks5.SecondsRoundUp | socket/Dial.cpp:20-23 | seconds are rounded up and at least one |
| Socks5.SecondsExactly | socket/Dial.cpp:20-23 | the least number of seconds, at least one, that holds the milliseconds |
| Socks5.SentParsesBack | socket/Dial.cpp:270-324 | what was sent parses back to the methods, the credentials exactly if method 2 was chosen, and the target |
| Socks5.CredentialsOnlyAfterMethod2 | socket/Dial.cpp:300-311 | unless method 2 was answered, the octets sent do not depend on the credentials |
| Socks5.AnswersAreConsumed | socket/Dial.cpp:288-349 | the answers of an accepting peer are consumed and nothing behind them |
| Socks5.ConsumedAreAnswers | socket/Dial.cpp:288-349 | a successful exchange has consumed exactly such answers |
| Socks5.FewerAreShort | socket/Dial.cpp:288-349 | not one octet fewer would have done |
| Socks5.ErrorsExactly | socket/Dial.cpp:288-349 | an exchange fails exactly with the error of the first octet that refuses, found by its place in the answers |
| ProxyUrl.PercentDecode | socket/Dial.cpp:90-105 | the loop is the recursive specification, errors included |
| ProxyUrl.ReadPort | socket/Dial.cpp:403-408 | the loop over the digits is the number they write, or refused |
| ProxyUrl.ReadProxyUrl | socket/Dial.cpp:354-414 | step by step, the proxy of the specification or the exception |
| ProxyUrl.DecodedEscaped | socket/Dial.cpp:90-105 | decoding inverts escaping |
| ProxyUrl.DecodedExactly | socket/Dial.cpp:90-105 | percent decoding takes exactly the texts in which every % has two hexadecimal digits of either case behind it |
| ProxyUrl.Bounds | socket/Dial.cpp:354-414 | user 1 to 255 octets, password at most 255, a host, a port from 1 to 65535 |
| ProxyUrl.ParsingInvertsPrinting | socket/Dial.cpp:354-414 | a printed proxy URL parses back, however its credentials are escaped and with or without brackets |
| ProxyUrl.TakenExactly | socket/Dial.cpp:354-414 | ParseProxyUrl takes a URL for a proxy if and only if it spells it: scheme in any case, escapes, password or none, brackets, a port of at most five digits |
| Dial.LoginIsOctets | socket/Dial.cpp:354-376 | the decoded user name and password of a URL of octets are octets |
| Dial.UrlReachesTheWire | socket/Dial.cpp:270-376 | the lengths ParseProxyUrl lets through fit: after a successful exchange the octets sent parse back to the URL's credentials and the target |
| Dial.PrintedReachesTheWire | socket/Dial.cpp:270-376 | credentials printed into a URL arrive at the proxy as they were |
| HttpParams.ExtractToken | websocketpp/http/parser.hpp:73-78 | the longest token and what is behind it |
| HttpParams.TokenCharsExactly | websocketpp/http/constants.hpp:78-100 | the table, row by row, says what a token character is in section 2.2 of RFC 2616: letters, digits and fifteen others |
| HttpParams.ExtractQuotedString | websocketpp/http/parser.hpp:92-127 | the loop over quotes is the character-wise specification |
| HttpParams.QuotedExactly | websocketpp/http/parser.hpp:110-121 | a value comes back exactly if it does not end in a backslash |
| HttpParams.EscapedBackslash | websocketpp/http/parser.hpp:110-121 | an escaped backslash does not protect the quote behind it |
| HttpParams.LwsSkipped | websocketpp/http/parser.hpp:139-151 | extract_lws skips linear white space and nothing else, and nothing exactly if there is none |
| HttpParams.AllLwsSkipped | websocketpp/http/parser.hpp:164-177 | extract_all_lws skips all of it and nothing else |
| HttpParams.ExtractAllLws | websocketpp/http/parser.hpp:164-177 | the do-loop terminates, is the recursive specification, and leaves no white space in front |
| HttpParams.ExtractAttributes | websocketpp/http/parser.hpp:195-276 | the loop makes progress, terminates and is the recursive specification |
| HttpParams.ExtractParameters | websocketpp/http/parser.hpp:293-377 | the same for parameters, with those read before an error |
| HttpParams.AttributesRead | websocketpp/http/parser.hpp:195-276 | a printed attribute list is read as the map it stands for, up to the end or to anything that continues nothing |
| HttpParams.ParsingInvertsPrinting | websocketpp/http/parser.hpp:293-377 | a printed parameter list is consumed whole and read back, with any blanks between |
| HttpParams.ListEnds | websocketpp/http/parser.hpp:293-377 | with something behind the list: a comma alone is the syntax error and leaves the parameters read, and anything that continues nothing ends the list there |
| Base64.EncodeMisc | misc/base64.cpp:104-153 | the text of RFC 4648 in either alphabet, for the lengths at which its loop ends |
| Base64.LoopEndsExactly | misc/base64.cpp:126-150 | with its 32-bit position the loop ends if and only if there are fewer than 2^32 octets |
| Base64.EncodeWs | websocketpp/base64/base64.hpp:66-112 | the same text |
| Base64.SameNumber | misc/base64.cpp:128-137 | four digits write the 24-bit number of three octets |
| Base64.AlphabetExactly | misc/base64.cpp:41-53 | the characters of the digits are those of the two alphabets, row by row |
| Base64.PosOfCharExactly | misc/base64.cpp:53-64 | a character is read as a digit just if one of the two alphabets writes it so |
| Base64.IsBase64Exactly | websocketpp/base64/base64.hpp:50-56 | the characters taken are those of the ordinary alphabet |
| Base64.TestVectors | misc/base64.cpp:104-153 | the test vectors of section 10 of RFC 4648 |
| Base64.InsertLinebreaks | misc/base64.cpp:66-82 | inserting in place breaks the text into lines of that length |
| Base64.DecodeMisc | misc/base64.cpp:156-215 | the decoder and its error cases; no character beyond the terminating zero is read |
| Base64.RemoveBreaks | misc/base64.cpp:170-173 | the erasing loop removes every newline and nothing else |
| Base64.DecodeWs | websocketpp/base64/base64.hpp:131-174 | the decoder, up to the first character outside the alphabet, for texts an int can count through |
| Base64.ReadableExactly | websocketpp/base64/base64.hpp:133-139 | what the encoders wrote is such a text if and only if it stands for fewer than 1.5 * 2^30 octets |
| Base64.GroupInverts | misc/base64.cpp:193-210 | four characters give back the one, two or three octets they were written for |
| Base64.MiscInverts | misc/base64.cpp:156-215 | decoding inverts encoding in both alphabets and both paddings |
| Base64.WsInverts | websocketpp/base64/base64.hpp:131-174 | decoding inverts encoding |
| Base64.BreaksUndone | misc/base64.cpp:85-97 | decoding with remove_linebreaks undoes line breaks of any length |

## Left out

- The logger, the ping and pong timers, close reasons and the texts of errors: no state depends on them.
- Handlers of the user that call back into the connection from inside a handler: such calls appear as later events of the run.
- The dispatch queue and strands of the transport: a dispatched call runs at some later step, and each async_shutdown has one callback.
- The processors of WebSocket++, extension negotiation, the message pool and the transport are oracles whose answers are arguments of the handlers.
- Session.Connection.EnterHandshakeHandler: the four copies of the guard in the source are one method here.
- The handshake half of the TLS client (credentials, renegotiation) and CertHelper are not modelled; a client starts after its handshake.
- TlsStream.SslClient.DeliverPlaintext: a record's plaintext is taken to fit the stash of 32000 octets; the error of the copy is not modelled.
- FrameHeader.SettersSetOneField: the bit operations on header octets are written as arithmetic on octets.
- Masking.WordMaskExact: aliasing casts are seen as eight octets of a 64-bit word; builds with four-octet words are not modelled.
- Utf8.DecodeByte: shifts and masks on the code point are written as arithmetic.
- Md5Transform.Process: the address-alignment and byte-order paths of md5.hpp, which only choose how the sixteen words are loaded, are not distinguished.
- Md5.Md5Cpp.Update: stated where the loop guard does not wrap, which NoWrapIsExact characterises; updates after finalize are not modelled.
- HttpResponse.ResolveHttpRequest: cancellation, per-receive timeouts, on_chunk returning false and the count of received octets are not modelled; a size_t has 64 bits.
- Chunked.HttpChunkDecoder.Feed: what the object holds after an exception is not stated, since the source drops it.
- DerSan.ReadAltNames: addresses stay octets (the conversion to text is a system call), trace texts are dropped, and lengths are taken not to overflow a 64-bit size.
- DerSan.ReadSanValue: the octet read from an empty element behind the identifier is an argument, because it lies outside the element.
- BaseSock.Sock.RecvPartial: the reuse of a read left pending by an earlier timeout is not modelled, because in the exchange an error ends it; the stop event counts as a failure.
- Socks5.StepBudget.Handshake: computing and name resolution take no time and the two clocks run in step; the resolved address is an argument.
- Socks5.SecondsRoundUp: the overflow of an int at timeouts within 998 milliseconds of the largest int is not modelled.
- ProxyUrl.ParsingInvertsPrinting: the conversion of the host to wide characters is not modelled.
- HttpParams.ExtractParameters: characters are octets.
- Base64.DecodeMisc: the string_view overload, which has no terminating zero, is not modelled.
- Winsock, Schannel and CryptoAPI calls, Lua binding, CertHelper, misc/ping.cpp and websocketpp/uri.hpp are not part of this model.
