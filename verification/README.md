# A verified model of the AI agent SDK

The SDK sits between a chat client, a Postgres database and pen-gpt, the service
that runs the language model. This project models its four connected parts and
proves what they promise.

- **Streams and pauses** (`protocol*.dfy`, `stream_handle.dfy`, `pause_stream.dfy`,
  `chat_turn.dfy`, `active_streams.dfy`). `Protocol` is a transition system with any number of
  threads, StreamChat calls and PauseStream calls; each step is one critical
  section, one handle operation, one upstream answer or the passing of time.
  `ProtocolInvariant` proves the inductive invariant, `ProtocolPromises`,
  `ProtocolTargets` and `ProtocolTime` the promises over whole runs. `StreamHandles` holds the handle and
  the activeStreams map as classes, `PauseStreams` the pause on those objects;
  `PauseStreams` and `ChatTurns` prove that a pause and a turn on the objects are runs
  of the transition system.
- **Message and thread lists** (`tables.dfy`, `keyset.dfy`, `messages.dfy`,
  `message_promises.dfy`, `content.dfy`, `threads.dfy`). Tables are maps on the
  schema's primary keys, queries are filter, sort and take; the ended-run filter is
  the join it is written as. `Keyset` is the theory of following the last key of a
  page over a table that changes in between.
- **The cursor** (`base64url.dfy`, `cursor.dfy`), down to bytes: unpadded base64url
  with strict trailing bits (sections 3.2, 3.5 and 5 of RFC 4648), the three-way
  split at dots, canonical signed 64-bit decimals and microsecond arithmetic.
- **The stream transducer** (`chat.dfy`, `thought.dfy`, `references.dfy`): upstream
  chunks to client events, the think-tag filter, and reference deduplication.

`wrappers.dfy` has Option and Result, `sequences.dfy` two facts about sequences.

## How to read it

Loops and objects that the service updates in place are methods and classes proved
against specification functions; the lemmas are about those functions. A list
method takes what the store would answer for each cursor as a function, and its
ghost parameters say which database that is. `Messages.Codec` is package cursor as
the lists use it; the promises in `MessagePromises` are about the real one, `CURSOR`.
`Collation`, the order of the id column, is any strict total order. `StreamChat` and
`PauseStream` as methods are one call with nothing in between; the interleavings are
the transition system's.

Assumptions, beyond what the schema guarantees:

- pen-gpt gives every stream response its own run id (`Protocol.FreshRun`; run_id is
  the primary key of stream_runs).
- Timestamps have Postgres's microsecond precision and are finite.
- `TimelyRun`, in `ProtocolTime` only: the wait for the run id, the lookup and the
  remote stop end by their context deadlines, and each local step between two of them
  takes at most some slack. The code does not fully ensure the first part: a remote
  stop fetches an ID token (`service/agent_stream.go:411`, `:470-511`), and that fetch
  takes no context, so a stop can outlast its deadline.

## Where the code does less than its comments say

- `service/agent.go:42-44` says ready is closed once the upstream request has answered or
  failed. When the start event cannot be written there is no request and the handle
  is never settled (`FailedStartNeverSettles`): a pause bound to it waits out its
  timeout.
- `service/agent.go:48-50` says the finish list reads the stop's outcome. With two
  pauses of one stream, stopAnswered is closed by the first one to return. Whenever
  both have a stop under way, the finish can be listed while the stop that ended the
  stream is unanswered (`SecondPauseReleasesTheListing`), and that does happen
  (`SecondPauseCanReleaseTheListing`). With one pause the comment holds
  (`ListsAfterItsPauseAnswered`).
- `cursor/cursor.go:38-39` keeps a time to the microsecond only if the microseconds
  fit 64 bits; `Cursor.DecodeEncode` gives the exact condition. An accepted token is
  the canonical one except that Go's decoder skips CR and LF; `Cursor.EncodeDecode`
  gives the exact condition.
- A message list cannot continue past a message with an empty id, and a thread list
  starts over at a thread with one; `MessagePromises.UnchangedWalkIsTheList` and
  `Threads.UnchangedWalkIsTheList` say exactly when a walk ends.
- A thread cursor is only an id, so its place is looked up again at the next request.
  When that thread is deleted, or no longer matches the search, the rest of the list is
  not returned (`UnlistedCursorEndsTheList`). When it is renamed or pinned it moves up
  and the walk returns again the threads it passed (`MovedUpCursorListsAgain`), all of
  them when it becomes the first (`TouchedCursorStartsOver`); when it moves down, it and
  the threads it passes are skipped (`MovedDownCursorSkips`). `StaysPutIff` says exactly when a request continues where
  the page before it ended; what happens to other threads does not matter
  (`ThreadsAreListedOnce`, `NoThreadMissed`).
- Thread lists panic at count 0 when there is a thread to list
  (`Threads.FailsExactlyWhen`). Message lists return an empty page without a next token
  at count 0, which reads as the end of the list whatever is left. Both panic at count
  -1 (`Threads.FailsExactlyWhen`, `Messages.ListingFailsExactlyWhen`).
- Which of two references with one key is kept from the query steps can depend on Go's
  map iteration order (`FallbackContentCanDependOnOrder`), exactly when two steps
  disagree on a key (`FallbackIgnoresOrderIff`); which keys are kept never does.
- Cutting streamed text inside a tag changes what the filter keeps
  (`CutIsInvisibleIff` gives the exact condition).

## Model

| member | source | states |
|---|---|---|
| ProtocolInvariant.Reachable | service/agent_stream.go:69-137 | the invariant (registration, handles, waits, pauses, stops, run ids) holds after every run of any number of streams and pauses |
| ProtocolInvariant.StreamKeepsInv | service/agent_stream.go:69-137 | every step of a StreamChat call keeps the invariant |
| ProtocolInvariant.PauseKeepsInv | service/agent.go:789-836 | every step of a PauseStream call keeps the invariant |
| ProtocolInvariant.UnboundUntouched | service/agent.go:765-774 | a pause leaves every stream it is not bound to unchanged and registered where it was |
| ProtocolPromises.OneLiveStreamPerThread | service/agent_stream.go:74-83 | a thread has at most one uncancelled, undeparted stream, and it is the one in activeStreams |
| ProtocolPromises.OlderNeverRemovesNewer | service/agent_stream.go:85-93 | an entry is replaced only by a registration on its thread and removed only by its own stream or a pause bound to it |
| ProtocolPromises.CancelledExactlyBy | service/agent_stream.go:71-80 | a stream becomes cancelled exactly when its client leaves, a new stream takes its thread, or a pause still bound to it cancels it |
| ProtocolPromises.BoundPauseStopsItsRunOnly | service/agent.go:846-877 | a pause with a local stream never reads stream_runs and sends at most one stop, naming that stream's settled run, which no other stream has |
| ProtocolTargets.TargetIsTheRunOfTheMoment | service/agent.go:857-877 | a pause is targeted at the run its stream has at that moment, also just after the wait ran out, and at none only when the whole wait has passed; without a local stream at what the lookup found |
| ProtocolTargets.TargetComesFromItsMoment | service/agent.go:865-877 | over whole runs, the run a pause goes on with is the one its stream had when it was targeted |
| ProtocolTargets.TargetIsFinal | service/agent.go:782-788 | and never changes afterwards: the run is fixed once per call |
| ProtocolTargets.RunKnownAtTargetIsStopped | service/agent.go:814-817 | a stream that has a run when its pause is targeted is stopped: a pause that is done has told pen-gpt to stop that run |
| ProtocolTargets.CancelsUnstoppedOnlyWithoutRun | service/agent.go:803-809 | a pause that cancelled without telling pen-gpt was targeted while its stream had no run |
| ProtocolPromises.CancelsOnlyWithoutRunOrAfterOk | service/agent.go:803-835 | a pause's step changes the map or a cancel flag only for the handle still bound, and only without a run id or after ok:true |
| ProtocolPromises.PauseResults | service/agent.go:796-836 | success exactly after ok:true or an actual local cancel, internal error exactly after a failed lookup or stop; after an error or ok:false nothing was cancelled, and only the bound stream ever is |
| ProtocolPromises.ListsAfterAPauseReturned | service/agent_stream.go:112-119 | a stream ended by a pause lists only after some pause bound to it returned, or its wait expired |
| ProtocolPromises.ListsAfterItsPauseAnswered | service/agent.go:48-53 | with a single pause, only after that pause's own stop was answered (or it had no run), or the wait expired |
| ProtocolPromises.SecondPauseReleasesTheListing | service/agent.go:60-62 | from every reachable state in which two pauses are stopping one streaming stream, a run in which the listing precedes the answer of the stop that ended it |
| ProtocolPromises.SecondPauseCanReleaseTheListing | service/agent.go:60-62 | such a state is reachable |
| ProtocolPromises.StepKeepsRunId | service/agent.go:88-94 | no step changes the run id of a settled handle |
| ProtocolPromises.RunIdIsWriteOnce | service/agent.go:88-94 | over any run the first settle wins for good |
| ProtocolPromises.SettledWhenUpstreamReturned | service/agent_stream.go:161-162 | doUpstreamStream returns settled; a closed stream is unsettled exactly when it never started |
| ProtocolPromises.FailedStartNeverSettles | service/agent_stream.go:95-98 | a stream whose start write failed never settles, so a bound pause leaves its wait only by timeout |
| ProtocolPromises.PausesNeverStick | service/agent.go:789-878 | in every reachable state a pause that is not done has its next step, whatever the database and pen-gpt answer |
| ProtocolPromises.StreamsNeverStick | service/agent_stream.go:69-137 | and so has a stream that is not closed, its wait ending at latest by its timer |
| ProtocolTime.TimelyReachable | service/agent.go:791-817 | every timely run keeps the deadlines of all marked pauses |
| ProtocolTime.WaitNeverExpiresUnanswered | service/agent.go:64-76 | in runs where marked pauses are timely, waitForStop's timer never fires before a pause answered |
| ProtocolTime.PauseIsBounded | service/agent.go:791-817 | from mark-pausing to endPause at most remoteStopTimeout and three local steps |
| ProtocolTime.WholePauseIsBounded | service/agent.go:838-844 | from binding to endPause a timely pause takes at most pauseAnswerTimeout: the wait or the lookup, the stop, and the local steps |
| StreamHandles.StreamHandle.Cancel | service/agent.go:41 | sets the cancel flag, nothing else |
| StreamHandles.StreamHandle.Settle | service/agent.go:88-94 | records the run id the first time only |
| StreamHandles.StreamHandle.Settled | service/agent.go:78-86 | true exactly when a run id was recorded |
| StreamHandles.StreamHandle.EndPause | service/agent.go:60-62 | closes stopAnswered, idempotently |
| StreamHandles.StreamRegistry.LocalStream | service/agent.go:880-884 | the handle registered on the thread |
| StreamHandles.StreamRegistry.Register | service/agent_stream.go:77-83 | the new handle takes the thread; exactly the handle it replaces is cancelled |
| StreamHandles.StreamRegistry.Deregister | service/agent_stream.go:87-93 | removes the entry only if it is this handle's |
| StreamHandles.StreamRegistry.CancelLocalStream | service/agent.go:886-899 | cancels and removes the handle exactly when it is still registered, and says so |
| StreamHandles.HandleStepsAgree | service/agent.go:60-94 | the handle operations are the transition system's |
| StreamHandles.NumberingCommutes | service/agent.go:889-899 | pointer comparison on the map decides what comparing stream numbers does |
| PauseStreams.PauseTarget | service/agent.go:856-878 | binds the thread's handle and returns its run, or without one the lookup's answer |
| PauseStreams.PauseStream | service/agent.go:789-836 | result, remote stop, map and every handle's state after an uninterrupted pause |
| PauseStreams.UninterruptedPauseIsARun | service/agent.go:789-878 | that outcome is the outcome of the transition system's steps, all enabled, from every state |
| PauseStreams.EveryRunCanPause | service/agent.go:789-878 | so every run of the transition system can go on with such a pause |
| ChatTurns.UninterruptedTurnIsARun | service/agent_stream.go:69-137 | StreamChat's map and handles are those of the transition system's steps for the turn, all enabled, from every state |
| ChatTurns.EveryRunCanStream | service/agent_stream.go:69-137 | so every run of the transition system can go on with such a turn |
| Base64Url.DecodeEncode | cursor/cursor.go:45 | every byte string survives unpadded base64url |
| Base64Url.EncodeDecode | cursor/cursor.go:53 | strictly decoded text is, line breaks aside, the encoding of its value |
| Base64Url.SymbolsAreTheAlphabet | cursor/cursor.go:45 | the symbols are those of section 5 of RFC 4648, in its order |
| Base64Url.QuantumsAreNumbers | cursor/cursor.go:45 | three bytes are one 24-bit number in four base-64 digits, most significant first; a last quantum is zero-padded and cut |
| Base64Url.StripJoin | cursor/cursor.go:53 | every CR and every LF is passed over, and nothing else |
| Cursor.ParseFormat | cursor/cursor.go:44-62 | a printed integer parses back exactly when it is an int64 |
| Cursor.CanonicalSpellings | cursor/cursor.go:62-66 | parsing and printing back accepts exactly the spellings that are printed |
| Cursor.FormatIsDecimal | cursor/cursor.go:44 | the k-th character from the right is the k-th decimal digit, without a leading zero, after a minus sign for negatives |
| Cursor.TokenLayout | cursor/cursor.go:3 | a token is base64url of "v1.", the microseconds, a dot and the id |
| Cursor.UnixMicroIsFloor | cursor/cursor.go:44 | the microsecond arithmetic floors, negative times included, and wraps outside int64 |
| Cursor.MicroRoundTrip | cursor/cursor.go:67 | every int64 microsecond survives conversion to a time and back |
| Cursor.SplitJoined | cursor/cursor.go:57-58 | splitting in three gives back the fields, dots in the id included |
| Cursor.DecodeEncode | cursor/cursor.go:40-68 | Decode undoes Encode: exact id, time floored to the microsecond, exactly when that is an int64 |
| Cursor.EncodeDecode | cursor/cursor.go:49-68 | every accepted token is, line breaks aside, the encoding of its position; equal to it exactly without CR and LF |
| Cursor.MicrosecondPositionsSurvive | cursor/cursor.go:38-39 | a Postgres position survives the token unchanged |
| Keyset.SortIsUnique | store/agent.go:304-307 | an ascending list of a set's keys is its ORDER BY |
| Keyset.FetchOneMore | service/agent.go:201-204 | fetching count+1 tells whether there is a next page and what the page is |
| Keyset.WalkAscends | store/agent.go:293-302 | a walk over arbitrarily changing tables ascends strictly, each key from its request's table |
| Keyset.WalkIsComplete | store/agent.go:293-302 | a finished walk has every key present at each request |
| Keyset.WalkOfUnchanged | store/agent.go:293-307 | over an unchanged table it finishes in exactly the pages needed and joins to the sorted table |
| Tables.OwnerRowsAreTheShownMessages | store/agent.go:274-289 | the owner's joins give exactly one row for each shown message of an owned undeleted thread and no other |
| Tables.SharedRowsAreTheShownMessages | store/share.go:56-70 | the shared joins give exactly one row for each shown message up to the link's creation |
| Tables.EndedStatusIsTheRunsStatus | store/ended_run_filter.go:58 | only user messages of ended runs carry a status: that run's, which is stopped, superseded or failed |
| Tables.OwnerRowsAreProjected | store/agent.go:275-286 | the row returned is the joined row's projection: feedback, timestamp, status |
| Tables.SharedRowsAreProjected | store/share.go:57-66 | the same for the shared page, without feedback |
| Tables.ReadsAreTheJoins | store/agent.go:274-289 | both lists read exactly the messages that have a joined row |
| Tables.RowsAreWhatTheTablesSay | store/ended_run_filter.go:38-61 | a row is listed exactly when, column by column, the tables say so: access, visibility, createdAtZ before createdAt, feedback, ended status |
| Tables.LowerIgnoresCase | store/ended_run_filter.go:52 | a run id is matched whatever its letter case, and nothing else is equated |
| Tables.OrphanThreadHidesNothing | store/ended_run_filter.go:27-29 | without a thread row nothing is hidden and no status is carried |
| Tables.KeyOrdersAreTotal | store/message_order.go:3-5 | (created_at, id) is a strict total order, ties broken by id |
| Content.ParseMessage | service/agent.go:256-345 | the owner's response for a row is the accumulated reading of its parts |
| Content.ExtractTextContent | service/agent.go:903-915 | the non-empty text parts joined by newlines, else the raw content |
| Content.PartsAreReadInOrder | service/agent.go:288-324 | the accumulated reading is the texts, images and the finished tools' steps, references, recommendations in part order, and the first tool's hasResults |
| Content.ResponseIsTheRow | service/agent.go:257-345 | the owner's response, field by field, of a V2 row and of any other; feedback "none" exactly for an assistant row without one |
| Content.OneToolMessage | service/agent.go:299-322 | what a single tool contributes, and when |
| Content.JoinLinesJoin | service/agent.go:328 | one line break between two neighbouring texts, and nothing else |
| Content.ReadersShowTheSameText | service/agent.go:328 | both give the same text for every row |
| Messages.SharedResponseIsTheRow | service/share.go:106-116 | the visitor's response, field by field |
| Messages.ReverseInPlace | service/agent.go:219-222 | the loop reverses the page |
| Messages.ListMessages | service/agent.go:184-224 | the owner's page: access check, cursor, the query's own failure, trim, next token from the last row fetched, chronological order |
| Messages.ListSharedMessages | service/share.go:81-127 | the shared page, or the query's own failure; not found without a live link |
| Messages.ListingIsPage | service/service.go:16-28 | with count >= 1 exactly the first count visible messages beyond the boundary, and a next token exactly when more are visible |
| Messages.ListingFailsExactlyWhen | service/agent.go:184-217 | exactly when a request fails and with which error, when it panics, and the empty last page at count 0 |
| Messages.CursorIsFaithful | service/service.go:22-27 | the cursor names every stored row's boundary exactly |
| Messages.WalkReadsKeyWalk | service/agent.go:193-217 | a client following next reads the pages of the key walk, as each request's database has them |
| MessagePromises.RowsAreVisibleMessages | store/agent.go:275-289 | over changing tables each row is the message as it was, visible, when its page was read, column by column what the tables then said |
| MessagePromises.NoMessageTwice | store/agent.go:291-302 | an id comes back only if the message was stored again with a timestamp further on in the list |
| MessagePromises.NoMessageMissed | cursor/cursor.go:3-5 | an ended walk returns every message visible under one timestamp at each request, whatever else changed, the cursor's row included |
| MessagePromises.UnchangedWalkEndsIff | service/agent.go:201-217 | exactly when a walk over unchanged tables ends |
| MessagePromises.UnchangedWalkIsTheList | store/agent.go:293-307 | it ends exactly when no empty id closes a full page; the number of pages is exact and they join to the ordered list |
| MessagePromises.UnchangedWalkIsWhatTheTablesSay | store/agent.go:274-307 | in terms of the tables alone: an ended walk has returned exactly the reader's rows, in time order, ties by id |
| MessagePromises.TranscriptIsChronological | service/agent.go:212-223 | pages fetched newest first and reversed one by one make the whole conversation, oldest first |
| MessagePromises.TranscriptIsWhatTheTablesSay | service/agent.go:206-223 | in terms of the tables alone: the transcript is the responses for exactly the owner's rows, oldest first, ties by id |
| MessagePromises.VisitorsReadTheOwnersConversation | store/share.go:53-98 | the complete shared walk is the owner's transcript up to the link's creation: same ids, roles, texts, ended statuses, in order |
| MessagePromises.LaterMessagesAreNeverShared | store/share.go:54-70 | messages written after the link's creation change no page of a shared walk |
| Threads.BuildThreadListResponse | service/agent.go:230-252 | trim, copy and next, with the two panics |
| Threads.ListThreads | service/agent.go:119-133 | the listing for the store's answer, or its failure |
| Threads.ListOrderIsTotal | store/agent.go:49-62 | the three-key row comparison is a strict total order |
| Threads.FailsExactlyWhen | service/agent.go:231-250 | a thread list fails exactly below count 0, and at 0 when a thread is left |
| Threads.UnlistedCursorEndsTheList | store/agent.go:49-53 | a cursor whose thread is gone reads as the end of the list |
| Threads.StaysPutIff | store/agent.go:49-53 | exactly when the request at a cursor selects what lies beyond the page it came from |
| Threads.MovedUpCursorListsAgain | store/agent.go:49-53 | a cursor whose thread moved up selects again the threads it passed |
| Threads.MovedDownCursorSkips | store/agent.go:49-53 | one whose thread moved down skips it and the threads it passed |
| Threads.TouchedCursorStartsOver | store/agent.go:204-206 | a cursor whose thread moved to the top selects every other thread again |
| Threads.ThreadsAreListedOnce | store/agent.go:31-74 | while the cursors stay, whatever happens to other threads, a thread is returned twice only if it moved down in between |
| Threads.NoThreadMissed | store/agent.go:31-74 | and an ended walk has every thread listed at one place at each request |
| Threads.UnchangedWalkIsTheList | store/agent.go:76-121 | on unchanged tables exactly when a walk ends, in how many pages, and that it lists each matching undeleted thread once, in order |
| Threads.PageIsWhatTheTablesSay | store/agent.go:33-62 | every response on any page is a matching undeleted thread of the user, with its title and its pin |
| Threads.UnchangedWalkIsWhatTheTablesSay | store/agent.go:76-121 | in terms of the tables alone: an ended walk has returned each matching undeleted thread of the user exactly once, pinned first, then newest update, then id |
| Threads.ListOrderMeans | store/agent.go:58-62 | pinned first, then newest update, then id |
| References.DeduplicateRefs | service/agent.go:683-720 | the loop computes first-occurrence deduplication |
| References.KeepsFirstOccurrences | service/agent.go:683-720 | the output is the converted first occurrence of every non-empty key, in input order |
| References.OutputKeysAreDistinct | service/agent.go:681-682 | keys recomputed from the output are non-empty and pairwise distinct |
| References.KeySetIsKept | service/agent.go:687-699 | no key is lost or invented |
| References.OutputIsTheInputs | service/agent.go:701-717 | each output reference is, field by field, the first occurrence it came from, with the two defaults |
| References.PlacesInOrder | service/agent.go:610-667 | the first of the four places that has references is the one used |
| References.OtherPlacesInOrder | service/agent.go:575-598 | recommendations beside the result before nested ones; hasResults nested before beside |
| References.ExtractReferences | service/agent.go:600-667 | the four places in order of preference, deduplicated |
| References.FallbackKeysIgnoreOrder | service/agent.go:651-667 | the keys kept from the query steps do not depend on the iteration order |
| References.FallbackIgnoresOrderIff | service/agent.go:651-667 | the same references are kept for every iteration order exactly when no two query steps disagree on the first reference of a key |
| References.FallbackContentCanDependOnOrder | service/agent.go:651-667 | two orders that keep different references for one key |
| Thought.IndexIsLeftmost | service/agent_stream.go:439 | the search finds the leftmost occurrence |
| Thought.FilterThought | service/agent_stream.go:434-460 | the loop ends and computes the recursive filter |
| Thought.FilterUnweaves | service/agent_stream.go:432-433 | of any text cut at its tags exactly the segments outside thoughts are kept |
| Thought.EveryTextIsWoven | service/agent_stream.go:434-460 | every text is such a weave: the filter's own cuts put back together give the text |
| Thought.CleanCutIsInvisible | service/agent_stream.go:286-288 | a chunk not ending in part of the tag searched for filters as if joined with what follows |
| Thought.CutIsInvisibleIff | service/agent_stream.go:286-288 | and exactly those chunks do |
| Thought.ChunksFilterAsWhole | service/agent_stream.go:282-295 | filtering chunk by chunk equals filtering the joined text |
| Chat.ReadChunks | service/agent_stream.go:250-366 | the chunk loop sends and collects what the fold over the chunks says |
| Chat.DoUpstreamStream | service/agent_stream.go:160-377 | events, references, recommendations and failure of every path, with the handle settled on return |
| Chat.StreamChat | service/agent_stream.go:69-137 | the whole trace and result, the map without the thread, exactly the superseded handle cancelled |
| Chat.TurnsSpeakTheLanguage | service/agent_stream.go:95-137 | every trace is in the language of turns, at most one error, ErrClientNotified exactly with one, finish exactly when listed |
| Chat.TurnsCarryWhatWasFound | service/agent_stream.go:102-129 | a references event exactly with all references collected, when there are any; likewise recommendations; a finish event exactly with the messages listed; no error but the turn's |
| Chat.TurnsEndWithTheList | service/agent_stream.go:118-132 | the event before done is finish with the list, or the error that there is none |
| Chat.TurnErrorsAreSent | service/agent_stream.go:160-377 | a turn that failed, by the upstream's answer or the list, has sent exactly that error's code |
| Chat.OutcomeIsTheError | service/agent_stream.go:134-136 | ErrClientNotified exactly for the turns with an error: which upstream answers, error chunks and read failures are one |
| Chat.OneChunkSends | service/agent_stream.go:282-354 | what each kind of chunk sends, and which steps are shown |
| Chat.OnlyChunksBeforeTheErrorCount | service/agent_stream.go:276-354 | events, text, steps, references and recommendations are those of the chunks before the first error, in order |
| Chat.NothingAfterTheErrorCounts | service/agent_stream.go:276-280 | turns that agree up to the first error chunk are the same turn |
| Chat.StreamedTextIsTheWholeTextFiltered | service/agent_stream.go:282-295 | under clean cuts the client's text is the whole text filtered at once |
| Chat.StoppedIsNotFailed | service/agent_stream.go:379-383 | a stopped stream without an error chunk sends no error and returns nil |

## Left out

- HTTP, headers, ID tokens, logging, JSON and SSE line splitting: requests have outcomes, chunks and contents are already parsed, with "does not parse" as a value.
- Chat.StreamChat: one call with no other in between, so waitForStop does not wait and the finish list is given; the interleavings are in `Protocol`, which the turn is a run of.
- PauseStreams.PauseStream: one call with no other in between, with the lookup and the stop's answer given; the interleavings are in `Protocol`, which the pause is a run of.
- PauseStreams.PauseTarget: nothing settles the handle while it waits, so an unsettled handle is one whose wait times out; in `Protocol` it may settle meanwhile.
- What pen-gpt does with a stop: the transition system lets it end a stream on a sent stop, or not.
- The finish list's content in a turn: `Chat` takes it as given, as ListMessages returned it.
- FindRunningRunID, GetThread and GetShareLink as queries: their answers are parameters.
- Display-name tables, inner workflow steps and userContent: lookups and formatting; names arrive translated.
- upstreamStatusError: the refusal's code is a parameter.
- Writing tables: thread create, rename, delete and pin, feedback, share links and short codes, forking.
- SQL text, planning, ILIKE and collation: a title filter is any predicate, the id order any strict total order; lower() is modelled on ASCII letters.
- NULL titles: scanning one fails in the service and is not modelled.
- Infinite timestamps and timestamps whose microseconds do not fit 64 bits, in the tables (the cursor itself is modelled for all times).
- ProtocolTime.TimelyReachable: deadlines and the slack of local steps are assumed, because the service sets deadlines only on its calls and the token fetch has none.
- ProtocolTime.WaitNeverExpiresUnanswered: under the same assumption about marked pauses.
- ProtocolTime.PauseIsBounded: under the same assumption about marked pauses.
- ProtocolTime.WholePauseIsBounded: under the same assumption about all pauses, with four local steps taking at most pauseWaitTimeout.
