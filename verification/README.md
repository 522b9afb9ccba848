# StudySync core, modelled in Dafny

This project models the deterministic core of the StudySync study platform and proves properties about it. All operations are pure functions over immutable datatypes. A state that the services keep in dictionaries, repositories or a client store is a `map` or a `seq`. Every operation returns the next state together with its answer.

The modules are:

- **Presentation** (`presentation.dfy`): the co-presenting state machine of the voice assistant service. It covers slide position, the presenter chosen from the human's inclusive slide ranges, the end flag, the transcript ledger, voice selection, one AI turn and the feedback guards.
- **Connection** (`connection.dfy`): the session connection manager. It covers the session registry, generated message ids, the 20-entry recovery cache and its replay, chunked binary framing, the per-message task table and broadcast. The network is an outbound log of frames, the `wire`. Transport failures are a per-handle `faults` map that the environment sets.
- **Dispatch** (`dispatch.dfy`): the WebSocket endpoint's routing, which links the two modules above. It covers keyword classification of spoken commands, the slide, presentation and audio handlers, text-frame routing, the heartbeat interval and the endpoint's cleanup.
- **Groups** and **SharedItems** (`groups.dfy`, `sharing.dfy`): study groups, covering member-list operations, role predicates, the service's owner guards, shared-item authorisation and chat-message authorisation.
- **Uploads** (`uploads.dfy`): the document uploader's validation, extension parsing, blob naming and the client view of a document.
- **DocumentFilters** (`doc_filters.dfy`): the document library's category, filter, sort, search, metadata parsing and icon choice.
- **SummaryStore** (`store.dfy`): the summary editor's client store, covering upsert, cascading delete, metadata patching and reset.
- **Pagination** (`pagination.dfy`): the flashcard list's page buttons.
- **TextUtils** (`text.dfy`): the client's text helpers, covering tag stripping, the two truncations, sentence preview, badges, word count, initials and relative time.
- **RouteGuard** (`middleware.dfy`): the client's public-path and redirect decision.
- **TokenCookies** (`cookies.dfy`): where the gateway finds the access and refresh tokens, and the cookies it sets and clears.
- **Summarizer** (`summarize.dfy`): chunk parameters, refine versus map-reduce batching, the strategy choice and the length-adjustment rule around the language model.
- **Flashcards** (`flashcards.dfy`): the cards-per-chunk plan, the generation stop rule, batched enhancement with its fallbacks, the storage filter and the last-resort text parser.
- **YouTube** (`youtube.dfy`): video-id extraction, transcript slicing and the grouping of Whisper segments into ten-minute documents.
- **Common** (`common.dfy`): shared string and sequence helpers (ASCII case mapping, whitespace stripping, splitting, joining, number printing).

The language model, speech synthesis, transcription, the clock and uuid generation are parameters. Each is a function value or a plain value supplied by the caller.

## Model

| member | source | states |
|---|---|---|
| Presentation.PresenterFor | server/services/ai-service/app/services/voice_assistant_service.py:428-433 | the presenter is the human exactly when some inclusive range covers the slide |
| Presentation.ApplyPersona | server/services/ai-service/app/services/voice_assistant_service.py:425-426 | each of the seven persona fields (name, age, year, major, tone, speaking style, gender) takes the update's value when the update supplies it and keeps the old value otherwise; an empty update changes nothing |
| Presentation.MaxKey | server/services/ai-service/app/services/voice_assistant_service.py:417 | the slide count is a slide key that no other key exceeds |
| Presentation.AiSlides | server/services/ai-service/app/services/voice_assistant_service.py:446-448 | the slides the AI presents are exactly those in 1..total that no range covers, in ascending order |
| Presentation.Setup | server/services/ai-service/app/services/voice_assistant_service.py:383-469 | after setup the session is on slide 1 and active; the total is the largest slide key (0 with no slides); the presenter is human iff slide 1 is covered; other sessions and all transcriptions are unchanged; one history entry is appended, the setup prompt with the AI's slides; the title and topic are stored; the persona is the default one, updated by a non-empty persona update |
| Presentation.MoveTo | server/services/ai-service/app/services/voice_assistant_service.py:529-540 | moving to slide n changes only the slide and the presenter, which follows the range rule |
| Presentation.Describe | server/services/ai-service/app/services/voice_assistant_service.py:542-547 | the slide reply reports the current slide, total, presenter and that slide's content (or the no-content text) |
| Presentation.AdvanceSlide | server/services/ai-service/app/services/voice_assistant_service.py:511-547 | an unknown session is an error; at or past the last slide the reply is "Already at the last slide" and nothing changes; otherwise the slide goes up by exactly one with the presenter rule applied |
| Presentation.SetSlide | server/services/ai-service/app/services/voice_assistant_service.py:591-629 | a slide outside 1..total is rejected with the range message and no change; otherwise the session moves there with the presenter rule |
| Presentation.EndPresentation | server/services/ai-service/app/services/voice_assistant_service.py:471-484 | false with no change for an unknown session; otherwise only the active flag is cleared |
| Presentation.GetPresentationState | server/services/ai-service/app/services/voice_assistant_service.py:486-509 | absent exactly for an unknown session; otherwise the view carries the stored current slide, slide count, presenter, active flag, title, topic and persona |
| Presentation.GetSlideContent | server/services/ai-service/app/services/voice_assistant_service.py:549-589 | content is returned exactly when the session and the slide exist; each missing case has its own error |
| Presentation.NavigationKeepsInvariants | server/services/ai-service/app/services/voice_assistant_service.py:511-629 | advance, set and end all keep the presenter consistent with the ranges and the slide in bounds |
| Presentation.AdvanceTimesLands | server/services/ai-service/app/services/voice_assistant_service.py:526-540 | k advances from slide c land on slide c+k while c+k stays within the total |
| Presentation.AdvancePastEndIsStable | server/services/ai-service/app/services/voice_assistant_service.py:526-527 | at the last slide, advancing is a no-op error, before and after the presentation is ended |
| Presentation.AdvanceIgnoresActiveFlag | server/services/ai-service/app/services/voice_assistant_service.py:481-484 | ending keeps slides, ranges and persona, and advancing still moves an ended presentation |
| Presentation.RecordTranscription | server/services/ai-service/app/services/voice_assistant_service.py:217-238 | the slide's entry becomes the old text, a newline and the new text, or the new text when there was none; other slides and sessions are unchanged |
| Presentation.RecordTwice | server/services/ai-service/app/services/voice_assistant_service.py:231-235 | two recordings on a fresh slide leave "a\nb" |
| Presentation.RecordExtends | server/services/ai-service/app/services/voice_assistant_service.py:231-233 | recording only extends an existing entry: the old text is a prefix of the new one |
| Presentation.NoteTranscribedAudio | server/services/ai-service/app/services/voice_assistant_service.py:123-132 | transcribed speech is recorded for the current slide exactly when a presentation is active and the human holds the turn |
| Presentation.SelectVoice | server/services/ai-service/app/services/voice_assistant_service.py:139-162 | the chosen voice is always one of the configured voices |
| Presentation.SelectVoiceClassifies | server/services/ai-service/app/services/voice_assistant_service.py:153-162 | under 25 gives a young voice, otherwise a mature one; female only when the gender says female, in any case; any other or missing gender gives the male variant |
| Presentation.PresentationTurn | server/services/ai-service/app/services/voice_assistant_service.py:631-712 | an unknown session gets "No active presentation found." and a slide without content "Slide n not found.", both with no audio and no state change; otherwise only the session's presenter changes, to the human exactly on a human-range slide, where the handoff text is returned with its synthesised audio; an AI slide returns the generated text (or the fixed timeout text) with the audio synthesised from it in the session's persona, and a failed generation returns the fixed apology with no audio |
| Presentation.TurnKeepsPresenterConsistent | server/services/ai-service/app/services/voice_assistant_service.py:656-682 | the AI turn on the current slide keeps the presenter consistent with the ranges |
| Presentation.CombineEmptyIff | server/services/ai-service/app/services/voice_assistant_service.py:318-325 | the combined transcript is empty exactly when none of the requested slides has a transcription |
| Presentation.Feedback | server/services/ai-service/app/services/voice_assistant_service.py:289-379 | no transcriptions, or none for the requested slides, gives the failure result without a model call; a report is produced exactly when some requested slide has text |
| Connection.Window | server/services/ai-service/app/utils/websocket_manager.py:318-320 | the kept cache is the last 20 entries (or all of them), oldest first |
| Connection.WindowAppend | server/services/ai-service/app/utils/websocket_manager.py:311-320 | trimming after each append equals trimming once at the end |
| Connection.AppendAllIsWindow | server/services/ai-service/app/utils/websocket_manager.py:311-320 | after any run of appends the cache is exactly the 20 most recent entries in insertion order |
| Connection.CacheMessage | server/services/ai-service/app/utils/websocket_manager.py:298-320 | the new entry is last, the cache grows by one until it holds 20, and the oldest entry is dropped first |
| Connection.CancelRuns | server/services/ai-service/app/utils/websocket_manager.py:110-117 | exactly the unfinished tasks of the session are asked to stop; all others keep their state |
| Connection.Disconnect | server/services/ai-service/app/utils/websocket_manager.py:86-120 | an unknown session is a no-op; otherwise the handle is closed and forgotten, the status is disconnected, running tasks are cancelled, the task table is emptied and the cache is kept; other sessions are untouched |
| Connection.Stamp | server/services/ai-service/app/utils/websocket_manager.py:151-160 | a supplied id and timestamp are kept; missing ones are filled with a fresh generated id and the current time; nothing else changes |
| Connection.FailWrite | server/services/ai-service/app/utils/websocket_manager.py:179-198 | a vanished peer or a "closed" error marks the session disconnected; any other error marks the tracked message failed and leaves the connection up; the cache survives |
| Connection.Prepare | server/services/ai-service/app/utils/websocket_manager.py:151-170 | before the write the stamped message is cached and tracked as pending; a fresh id is used only when none was supplied |
| Connection.Transmit | server/services/ai-service/app/utils/websocket_manager.py:172-198 | the write succeeds exactly when the session can be written to, and then the frame is logged and the message marked sent |
| Connection.SendJson | server/services/ai-service/app/utils/websocket_manager.py:135-198 | false with no change unless connected; on a writable session exactly the stamped frame is appended to the wire and the result is true; other sessions are untouched |
| Connection.Install | server/services/ai-service/app/utils/websocket_manager.py:585-618 | the new handle becomes the live, connected one; an old handle is closed with 1001; cache and tasks are kept |
| Connection.Connect | server/services/ai-service/app/utils/websocket_manager.py:563-635 | connecting installs the handle, keeps tasks and cache, and sends a status message reporting the cache size |
| Connection.ReconnectReplaces | server/services/ai-service/app/utils/websocket_manager.py:587-604 | a second connect under one session id closes the first handle and leaves the second one live |
| Connection.TaskId | server/services/ai-service/app/utils/websocket_manager.py:407-408 | a task keeps a given non-empty id, otherwise it gets a fresh generated one |
| Connection.CreateTask | server/services/ai-service/app/utils/websocket_manager.py:395-467 | the task is filed under its id in the session's table (overwriting an entry with that id), is running, and is tracked as running |
| Connection.Outcome | server/services/ai-service/app/utils/websocket_manager.py:418-450 | a task asked to stop ends cancelled; otherwise it ends completed or errored, as its coroutine ends |
| Connection.Conclude | server/services/ai-service/app/utils/websocket_manager.py:418-450 | a finished task's run and tracking record its outcome; finished or unknown tasks are left alone |
| Connection.SettleAsWritten | server/services/ai-service/app/utils/websocket_manager.py:457-461 | the done callback removes whatever task is filed under the ended task's id |
| Connection.Settle | server/services/ai-service/app/utils/websocket_manager.py:457-461 | the entry is removed only when it still names the ended task, so every other filed task stays |
| Connection.ReusedIdOrphansTask | server/services/ai-service/app/utils/websocket_manager.py:453-461 | as written, when a task ends after a newer task reused its id, the newer task is no longer filed and a later disconnect leaves it running |
| Connection.ReusedIdIsCancelled | server/services/ai-service/app/utils/websocket_manager.py:453-461 | with the intended callback, the newer task stays filed and disconnect cancels it |
| Connection.Chunks | server/services/ai-service/app/utils/websocket_manager.py:249-256 | every chunk is non-empty and at most 64 KiB |
| Connection.ChunksFlatten | server/services/ai-service/app/utils/websocket_manager.py:249-256 | the chunks concatenated give the payload back |
| Connection.ChunksCount | server/services/ai-service/app/utils/websocket_manager.py:245-249 | the number of chunks equals the announced total, the ceiling of length / 64 KiB |
| Connection.SendChunks | server/services/ai-service/app/utils/websocket_manager.py:249-259 | undisturbed, every chunk goes out as one binary frame in order; a drop before some chunk makes the transfer fail and leaves the session disconnected |
| Connection.SendChunked | server/services/ai-service/app/utils/websocket_manager.py:237-269 | a connection that drops during the chunks makes the transfer return false |
| Connection.SendChunkedUndisturbed | server/services/ai-service/app/utils/websocket_manager.py:237-269 | undisturbed, the transfer sends the start header, the chunks in order and the completion trailer, and the binary frames carry exactly the payload |
| Connection.SendDirect | server/services/ai-service/app/utils/websocket_manager.py:270-276 | a small payload goes out as one binary frame; the result is true exactly when the session is writable |
| Connection.SendBytes | server/services/ai-service/app/utils/websocket_manager.py:200-296 | false with no change unless connected; the payload is tracked, and the cache gains a metadata record holding the size as a top-level key beside the type, with no data key; it is chunked only above 128 KiB; a drop during chunking gives false |
| Connection.MetadataReplayed | server/services/ai-service/app/utils/websocket_manager.py:228-233 | recovery replays the cached metadata record as cached, flagged, with the size still top-level |
| Connection.SendBytesDelivers | server/services/ai-service/app/utils/websocket_manager.py:236-276 | whatever its size, an undisturbed payload arrives intact in the binary frames |
| Connection.ResumeIndex | server/services/ai-service/app/utils/websocket_manager.py:343-348 | replay starts just past the first cached message with the client's last id, or at 0 when none matches |
| Connection.ReplayLive | server/services/ai-service/app/utils/websocket_manager.py:364-379 | the replay loop as written walks the live cache; it only appends to the wire and touches no other session |
| Connection.FlagAt | server/services/ai-service/app/utils/websocket_manager.py:372-373 | only the cached message at that index gains the recovery flag |
| Connection.RecoverAsWritten | server/services/ai-service/app/utils/websocket_manager.py:322-393 | false with no change when disconnected or the cache is empty; true with nothing sent when nothing is newer; otherwise it replays the live cache |
| Connection.Flagged | server/services/ai-service/app/utils/websocket_manager.py:364-379 | replayed messages are the non-binary entries, each flagged as a recovery message |
| Connection.ReplaySnapshot | server/services/ai-service/app/utils/websocket_manager.py:364-379 | the intended replay sends a fixed snapshot of entries and touches no other session |
| Connection.ReplaySnapshotSends | server/services/ai-service/app/utils/websocket_manager.py:364-379 | on a writable session the snapshot replay sends exactly one flagged frame per non-binary entry, in order |
| Connection.Recover | server/services/ai-service/app/utils/websocket_manager.py:322-393 | the intended recovery has the same guards and markers as the code but replays the cache as it was when recovery began |
| Connection.RecoverReplaysSuffix | server/services/ai-service/app/utils/websocket_manager.py:343-389 | recovery sends the start marker, the cached messages after the client's last id, and a completion; both markers count every cached entry after that id, binary entries included, although binary entries are not replayed |
| Connection.SendStep | server/services/ai-service/app/utils/websocket_manager.py:150-178 | one send on a writable session appends one frame and one cache entry |
| Connection.RecoverAsWrittenMiscounts | server/services/ai-service/app/utils/websocket_manager.py:356-387 | with two cached updates and the first one acknowledged, the code as written replays its own start marker and sends four frames |
| Connection.RecoverExampleAgrees | server/services/ai-service/app/utils/websocket_manager.py:356-387 | the same request with the intended replay sends three frames: start, update 2 and a completion counting one |
| Connection.BroadcastSend | server/services/ai-service/app/utils/websocket_manager.py:483-495 | the failed sessions are exactly the listed, non-excluded ones that cannot be written to; excluded and unlisted sessions are untouched; the wire grows by exactly the deliveries worked out from the manager before the loop |
| Connection.DeliveriesReach | server/services/ai-service/app/utils/websocket_manager.py:483-495 | every delivery is the message's type and data on the handle of a listed, non-excluded, writable session, and every such session gets one |
| Connection.DisconnectAll | server/services/ai-service/app/utils/websocket_manager.py:497-499 | every listed session ends disconnected and no other session changes |
| Connection.Broadcast | server/services/ai-service/app/utils/websocket_manager.py:501-531 | after a broadcast a listed, non-excluded session is still connected exactly when it was writable; the deliveries, in table order, are on the wire; when every such session is writable they are all that was added |
| Connection.DisconnectHandle | server/services/ai-service/app/routes/web_sockets.py:396-398 | tearing down a given handle disconnects the session only while that handle is the live one |
| Dispatch.AnyContained | server/services/ai-service/app/routes/web_sockets.py:843-894 | true exactly when one of the words occurs in the text |
| Dispatch.Classify | server/services/ai-service/app/routes/web_sockets.py:843-894 | first match wins in the order advance, end, feedback, by substring of the lower-cased utterance; each outcome is characterised both ways |
| Dispatch.NextAnywhereAdvances | server/services/ai-service/app/routes/web_sockets.py:844 | any utterance containing "next" in any case, even inside a word, advances the slide |
| Dispatch.EndAnywhereIsCommand | server/services/ai-service/app/routes/web_sockets.py:862 | any utterance containing "end" (so also "weekend") is a command and is never recorded |
| Dispatch.AdvanceErrorReplies | server/services/ai-service/app/routes/web_sockets.py:995-1012 | an error mentioning "last slide" goes to the completion path; any other error is sent back as it is |
| Dispatch.AdvanceErrorsRouted | server/services/ai-service/app/routes/web_sockets.py:995-1012 | the service's "last slide" error reaches completion, and its unknown-session error is reported |
| Dispatch.AiTurn | server/services/ai-service/app/routes/web_sockets.py:1040-1110 | an AI turn is bracketed by processing start and stop and changes the service as one presentation turn |
| Dispatch.HandleAdvanceSlide | server/services/ai-service/app/routes/web_sockets.py:966-1142 | unknown session: one error; at the end: the completion path; otherwise a slide update for slide n+1, then either the AI turn or guidance for the human |
| Dispatch.HandlePresentSlide | server/services/ai-service/app/routes/web_sockets.py:1144-1271 | without an active presentation: one error; on the human's turn: guidance and no state change; on the AI's turn: an AI turn |
| Dispatch.HandleEndPresentation | server/services/ai-service/app/routes/web_sockets.py:1273-1358 | an unknown session gets the cannot-end error; otherwise only the active flag is cleared and the ended notice and conclusion follow |
| Dispatch.HandlePresentationAudio | server/services/ai-service/app/routes/web_sockets.py:820-964 | a command is acknowledged and runs its handler; a plain utterance is recorded for the current slide on the human's turn and answered with a reminder, recording nothing, on the AI's turn; a missing session is reported with Python's `repr` of its id |
| Dispatch.MissingKeyQuotes | server/services/ai-service/app/routes/web_sockets.py:958-962 | a plain session id is quoted with single quotes; one holding a single quote is put in double quotes, as `repr` does |
| Dispatch.PlainUtteranceRecording | server/services/ai-service/app/routes/web_sockets.py:897-951 | on the AI's turn no transcription changes; on the human's turn only the current slide's entry of that session changes |
| Dispatch.AudioFrame | server/services/ai-service/app/routes/web_sockets.py:606-818 | every audio exchange is bracketed by processing start and stop; in presentation mode the echoed utterance goes to the presentation handler, otherwise to the conversation model |
| Dispatch.UtteranceRecordedTwice | server/services/ai-service/app/services/voice_assistant_service.py:124-132 | one plain utterance on the human's turn is written twice: the fresh slide ends up with "t\nt" |
| Dispatch.Inner | server/services/ai-service/app/routes/web_sockets.py:558 | a nested field is read from a dictionary "data", is absent when "data" is missing, and raises when "data" is not a dictionary |
| Dispatch.ControlAction | server/services/ai-service/app/routes/web_sockets.py:575-592 | each known control action runs its handler; an unknown action gets one error naming it |
| Dispatch.HandleText | server/services/ai-service/app/routes/web_sockets.py:412-604 | every frame is first acknowledged, echoing its `type` value as it came; unknown types get nothing else; "init" gets the initialised notice; a presentation control gets a status notice naming Python's `str` of the action and then the action dispatch's replies and state; a `data` member that is not a dictionary gets the catch-all error |
| Dispatch.UnknownControlAnswered | server/services/ai-service/app/routes/web_sockets.py:584-592 | an unknown control action is answered with exactly the acknowledgement and one error |
| Dispatch.FrameTaskId | server/services/ai-service/app/routes/web_sockets.py:273-289 | a missing or falsy message id gets a fresh id; a non-empty string, a non-zero integer or `true` is itself the key (with `true` keyed as 1) |
| Dispatch.FrameId | server/services/ai-service/app/routes/web_sockets.py:273-289 | a message id fails to key the task table exactly when it is a non-empty list or dictionary |
| Dispatch.TrueAndOneShareKey | server/services/ai-service/app/utils/websocket_manager.py:407-428 | a frame with message id `true` and one with message id `1` are filed under the same task entry |
| Dispatch.PyStr | server/services/ai-service/app/routes/web_sockets.py:558-567 | a string prints as itself and any other value as its Python `repr` |
| Dispatch.NonStringNamesNoAction | server/services/ai-service/app/routes/web_sockets.py:575-582 | no value that is not a string prints as one of the four control action names |
| Dispatch.NonStringActionUnknown | server/services/ai-service/app/routes/web_sockets.py:555-592 | a control action that is not a string is echoed in the status notice as Python prints it and then answered as an unknown action, with no state change |
| Dispatch.RouteText | server/services/ai-service/app/routes/web_sockets.py:266-304 | pong and heartbeat replies spawn no task and change nothing; undecodable JSON gets "Invalid JSON format"; a non-object gets the server error of its failed `get`; a non-empty list or dict id gets the "unhashable type" server error; every other frame starts a running, tracked handler task filed under its key, sending nothing |
| Dispatch.RouteBytes | server/services/ai-service/app/routes/web_sockets.py:306-320 | a binary frame starts a running handler task under a fresh id and sends nothing |
| Dispatch.HeartbeatWait | server/services/ai-service/app/routes/web_sockets.py:168-188 | the wait is 15 seconds exactly while the session presents, otherwise 30 |
| Dispatch.EndingSlowsHeartbeat | server/services/ai-service/app/routes/web_sockets.py:168-188 | ending an active presentation moves the heartbeat from 15 to 30 seconds |
| Dispatch.CancelHeartbeat | server/services/ai-service/app/routes/web_sockets.py:376-380 | a running heartbeat is asked to stop; otherwise nothing changes |
| Dispatch.EndpointCleanupAsWritten | server/services/ai-service/app/routes/web_sockets.py:371-398 | as written, the cleanup disconnects the session id whoever now holds it |
| Dispatch.EndpointCleanup | server/services/ai-service/app/routes/web_sockets.py:371-398 | the intended cleanup disconnects only while its own handle is live; otherwise the session is untouched |
| Dispatch.ReplacedCleanupDropsSuccessor | server/services/ai-service/app/routes/web_sockets.py:396-398 | after a reconnect, the old endpoint's cleanup as written disconnects the new connection |
| Dispatch.ReplacedCleanupKeepsSuccessor | server/services/ai-service/app/routes/web_sockets.py:396-398 | with the intended cleanup the new connection stays connected on its handle |
| Groups.FirstIndex | server/services/group-service/src/main/java/com/StudySolution/studysync/model/Group.java:34-39 | the index of the first entry for the user, absent exactly when no entry has that id |
| Groups.Find | server/services/group-service/src/main/java/com/StudySolution/studysync/model/Group.java:34-39 | the entry found has the user's id and is absent exactly when none does |
| Groups.FindAtFirstIndex | server/services/group-service/src/main/java/com/StudySolution/studysync/model/Group.java:34-39 | getMember returns the entry at the first matching index |
| Groups.GetMember | server/services/group-service/src/main/java/com/StudySolution/studysync/model/Group.java:30-39 | a member entry is found exactly when the user is a member |
| Groups.NewGroup | server/services/group-service/src/main/java/com/StudySolution/studysync/model/Group.java:41-49 | a new group has exactly one member, the owner, with the owner role |
| Groups.OwnerOrAdminByFirstEntry | server/services/group-service/src/main/java/com/StudySolution/studysync/model/Group.java:51-55 | owner-or-admin holds exactly when the first entry for the user has the owner or admin role |
| Groups.AddMember | server/services/group-service/src/main/java/com/StudySolution/studysync/model/Group.java:61-65 | a member is never added twice; a new user is appended; ids stay unique |
| Groups.AddMemberIdempotent | server/services/group-service/src/main/java/com/StudySolution/studysync/model/Group.java:61-65 | adding the same user twice equals adding once |
| Groups.Without | server/services/group-service/src/main/java/com/StudySolution/studysync/model/Group.java:67-69 | the entries kept are exactly those of other users |
| Groups.RemoveMember | server/services/group-service/src/main/java/com/StudySolution/studysync/model/Group.java:67-69 | every entry of the user goes, every other entry stays, and nothing else in the group changes |
| Groups.RemoveMemberKeepsOthers | server/services/group-service/src/main/java/com/StudySolution/studysync/model/Group.java:67-69 | removing one user changes no other user's membership |
| Groups.UpdateMemberRole | server/services/group-service/src/main/java/com/StudySolution/studysync/model/Group.java:71-76 | a non-member is a no-op; otherwise only the first entry of the user takes the role, and the length and ids are kept |
| Groups.UpdateMemberRoleTakes | server/services/group-service/src/main/java/com/StudySolution/studysync/model/Group.java:71-76 | after the update the member's role is the new role |
| Groups.WithoutKeepsFind | server/services/group-service/src/main/java/com/StudySolution/studysync/model/Group.java:67-69 | removing one user keeps every other user's first entry |
| Groups.AppendKeepsFind | server/services/group-service/src/main/java/com/StudySolution/studysync/model/Group.java:61-65 | appending keeps the first entry of a user who was present |
| Groups.UpdateKeepsFind | server/services/group-service/src/main/java/com/StudySolution/studysync/model/Group.java:71-76 | re-ranking one user keeps every other user's first entry |
| Groups.GetGroupById | server/services/group-service/src/main/java/com/StudySolution/studysync/service/GroupServiceImpl.java:31-34 | an unknown group id raises not-found; a known one returns the stored group |
| Groups.UpdateGroup | server/services/group-service/src/main/java/com/StudySolution/studysync/service/GroupServiceImpl.java:42-57 | the update succeeds exactly when the group exists and the acting user is an owner or admin; then name, description, avatar and settings come from the update, the id, creation time, owner and members stay, and every other group is untouched |
| Groups.DeleteGroup | server/services/group-service/src/main/java/com/StudySolution/studysync/service/GroupServiceImpl.java:60-63 | a known group is removed from the repository; an unknown one raises not-found |
| Groups.AddMemberToGroup | server/services/group-service/src/main/java/com/StudySolution/studysync/service/GroupServiceImpl.java:66-70 | a known group gets the member added; an unknown one raises not-found |
| Groups.RemoveMemberFromGroup | server/services/group-service/src/main/java/com/StudySolution/studysync/service/GroupServiceImpl.java:73-83 | the owner can never be removed; any other user is removed |
| Groups.ChangeMemberRole | server/services/group-service/src/main/java/com/StudySolution/studysync/service/GroupServiceImpl.java:86-96 | the owner's role can never be changed; any other member's role is updated |
| Groups.ServiceKeepsOwner | server/services/group-service/src/main/java/com/StudySolution/studysync/service/GroupServiceImpl.java:66-96 | adding, removing and re-ranking through the service keep the owner a member whose first entry has the owner role |
| Groups.IsUserMemberOfGroup | server/services/group-service/src/main/java/com/StudySolution/studysync/service/GroupServiceImpl.java:99-102 | true exactly when the user is a member of the known group |
| Groups.CanUserShareInGroup | server/services/group-service/src/main/java/com/StudySolution/studysync/service/GroupServiceImpl.java:105-115 | owners and admins may share; otherwise a user may share only as a member when member sharing is allowed |
| Groups.SharersAreMembers | server/services/group-service/src/main/java/com/StudySolution/studysync/service/GroupServiceImpl.java:105-115 | whoever may share is a member of the group |
| SharedItems.VerifyItemAccess | server/services/group-service/src/main/java/com/StudySolution/studysync/service/SharedItemServiceImpl.java:96-114 | access holds exactly for the three supported types that the item service returns; everything else ends unauthorised |
| SharedItems.ShareItem | server/services/group-service/src/main/java/com/StudySolution/studysync/service/SharedItemServiceImpl.java:41-59 | sharing succeeds exactly when the user may share, the item is not already shared in the group and access checks out; the record is stored and marks the item shared |
| SharedItems.ShareKeepsNoDuplicates | server/services/group-service/src/main/java/com/StudySolution/studysync/service/SharedItemServiceImpl.java:52-58 | sharing never puts the same item of the same type twice into one group |
| SharedItems.UnsupportedNeverShared | server/services/group-service/src/main/java/com/StudySolution/studysync/service/SharedItemServiceImpl.java:96-114 | an item of an unsupported type is never shared |
| SharedItems.MayManage | server/services/group-service/src/main/java/com/StudySolution/studysync/service/SharedItemServiceImpl.java:77-78 | the author may always act; anyone else needs owner or admin in a group that exists |
| SharedItems.RemoveSharedItem | server/services/group-service/src/main/java/com/StudySolution/studysync/service/SharedItemServiceImpl.java:73-83 | removal succeeds exactly for the sharer or a group owner or admin, and removes only that item |
| SharedItems.SendMessage | server/services/group-service/src/main/java/com/StudySolution/studysync/service/MessageServiceImpl.java:27-35 | non-members are rejected; a member's message is stored with the send time; a message without an id gets a fresh one, so every stored message is kept |
| SharedItems.SentMessagesAreStamped | server/services/group-service/src/main/java/com/StudySolution/studysync/service/MessageServiceImpl.java:33-34 | a stored message carries the time it was sent |
| SharedItems.GetMessageById | server/services/group-service/src/main/java/com/StudySolution/studysync/service/MessageServiceImpl.java:43-46 | an unknown message id raises not-found; a known one returns the message |
| SharedItems.DeleteMessage | server/services/group-service/src/main/java/com/StudySolution/studysync/service/MessageServiceImpl.java:49-59 | deletion succeeds exactly for the sender or a group owner or admin, and removes only that message |
| SharedItems.PlainMemberCannotDelete | server/services/group-service/src/main/java/com/StudySolution/studysync/service/MessageServiceImpl.java:53-56 | a plain member cannot delete another member's message |
| Uploads.ValidateFile | server/services/document-uploader/src/main/java/com/StudySolution/studysync/util/DocumentUtil.java:40-53 | an upload passes exactly when it is non-empty, at most 50 MiB and of an allowed type; each failure has its own message, checked in order |
| Uploads.SizeLimitInclusive | server/services/document-uploader/src/main/java/com/StudySolution/studysync/util/DocumentUtil.java:45-47 | exactly 50 MiB passes and one byte more is too large |
| Uploads.LastIndexOf | server/services/document-uploader/src/main/java/com/StudySolution/studysync/util/DocumentUtil.java:76-77 | the index of the last occurrence of the character, absent exactly when it does not occur |
| Uploads.FileExtension | server/services/document-uploader/src/main/java/com/StudySolution/studysync/util/DocumentUtil.java:73-78 | a missing or dot-less name gives ""; otherwise the lower-cased text after the last dot, which has no dot |
| Uploads.ExtensionOfJoinedName | server/services/document-uploader/src/main/java/com/StudySolution/studysync/util/DocumentUtil.java:73-78 | a name written as base, dot and a dot-less extension gives that extension back, lower-cased |
| Uploads.BlobName | server/services/document-uploader/src/main/java/com/StudySolution/studysync/util/DocumentUtil.java:60-66 | the blob name is the timestamp, a dash, 8 uuid characters and a dot, followed by the file's extension |
| Uploads.BlobNameBareDot | server/services/document-uploader/src/main/java/com/StudySolution/studysync/util/DocumentUtil.java:60-66 | the blob name ends in a bare dot exactly when the original name has no extension |
| Uploads.BlobNameKeepsExtension | server/services/document-uploader/src/main/java/com/StudySolution/studysync/util/DocumentUtil.java:60-78 | reading the extension back from the blob name gives the original file's extension |
| Uploads.ConvertToView | server/services/document-uploader/src/main/java/com/StudySolution/studysync/util/DocumentUtil.java:85-102 | the view copies every public field and has no preview |
| Uploads.ConvertToViewWithPreview | server/services/document-uploader/src/main/java/com/StudySolution/studysync/util/DocumentUtil.java:110-114 | the preview view is the plain view plus the given preview address |
| Uploads.ViewHidesStorage | server/services/document-uploader/src/main/java/com/StudySolution/studysync/util/DocumentUtil.java:85-102 | the view ignores the blob name and the soft-delete flag |
| DocumentFilters.CategoryOf | client/src/utils/documentUtils.ts:71-85 | each category holds exactly when one of its keywords ("pdf"; "image"; "video"; "audio"; "excel" or "spreadsheet"; "word" or "document"; "presentation") occurs in the lower-cased content type and no keyword of an earlier category does; Other exactly when none occurs |
| DocumentFilters.Keep | client/src/utils/documentUtils.ts:94 | filtering keeps exactly the documents that pass, in order |
| DocumentFilters.KeepIdempotent | client/src/utils/documentUtils.ts:94 | filtering twice with one test equals filtering once |
| DocumentFilters.FilterByCategory | client/src/utils/documentUtils.ts:88-95 | "All" is the identity; any other choice keeps exactly the documents of that category |
| DocumentFilters.WordCategory | client/src/utils/documentUtils.ts:71-85 | a legacy Word upload falls in the Word-document category |
| DocumentFilters.WordDocumentUnlisted | client/src/components/library/docs/FilterBar.tsx:31 | under the filter as written, a Word upload appears under "All" but under none of the categories the picker offers |
| DocumentFilters.FilterByChoice | client/src/components/library/docs/FilterBar.tsx:31 | the intended filter: "Other" collects every document that is not a PDF, image or video |
| DocumentFilters.Bucket | client/src/components/library/docs/FilterBar.tsx:31 | each category maps to one offered choice, Other exactly for those outside PDF, image and video |
| DocumentFilters.ChoicesPartition | client/src/components/library/docs/FilterBar.tsx:31 | under the intended filter each document is listed under exactly one offered category |
| DocumentFilters.Insert | client/src/utils/documentUtils.ts:106-122 | inserting into a sorted list keeps it sorted and adds exactly that element |
| DocumentFilters.Sort | client/src/utils/documentUtils.ts:106-122 | the sort result is a permutation of the input, ordered by the key |
| DocumentFilters.Reverse | client/src/utils/documentUtils.ts:109-117 | reversal puts element i at position n-1-i |
| DocumentFilters.ReverseInvolutive | client/src/utils/documentUtils.ts:109-117 | reversing twice gives the list back |
| DocumentFilters.SortDocuments | client/src/utils/documentUtils.ts:98-128 | the result is a permutation of the input, ascending or descending by the key; an unknown key returns the input order whatever the order argument |
| DocumentFilters.DescIsReversedAsc | client/src/utils/documentUtils.ts:106-128 | for a known key, descending is the ascending result reversed, and back |
| DocumentFilters.SortKeepsDocuments | client/src/utils/documentUtils.ts:103 | sorting keeps the library's size and exactly its documents |
| DocumentFilters.ParseMetadata | client/src/utils/documentUtils.ts:59-68 | absent or empty metadata gives none; otherwise the parser's answer, none when it fails |
| DocumentFilters.StringsOf | client/src/utils/documentUtils.ts:145 | the string values are exactly the string entries, in order |
| DocumentFilters.ValuesOf | client/src/utils/documentUtils.ts:144 | an object's values in key order |
| DocumentFilters.Characters | client/src/utils/documentUtils.ts:144 | a string's values are its characters, one per entry |
| DocumentFilters.SearchDocuments | client/src/utils/documentUtils.ts:132-151 | an empty query is the identity; otherwise exactly the documents whose lower-cased name or string metadata contains the lower-cased query |
| DocumentFilters.SearchIgnoresQueryCase | client/src/utils/documentUtils.ts:138-151 | search does not depend on the query's case |
| DocumentFilters.SearchIdempotent | client/src/utils/documentUtils.ts:132-151 | searching the result again with the same query changes nothing |
| DocumentFilters.MetadataValueMatches | client/src/utils/documentUtils.ts:140-150 | a string metadata value containing the query makes the document match |
| DocumentFilters.FileIcon | client/src/utils/documentUtils.ts:18-47 | the icon is chosen from the lower-cased extension among seven fixed answers, "file" for anything unknown |
| DocumentFilters.FileIconIgnoresCase | client/src/utils/documentUtils.ts:18-19 | the icon does not depend on the extension's case |
| SummaryStore.MergeResult | client/src/context/SummaryStore.ts:131-134 | each of the eight fields takes the patch's value when present and keeps the old one otherwise; an empty patch changes nothing |
| SummaryStore.MergeComposes | client/src/context/SummaryStore.ts:131-134 | two merges in a row are one merge of the later patch laid over the earlier; merging the same patch twice equals merging it once |
| SummaryStore.MergeWholeResult | client/src/context/SummaryStore.ts:131-134 | merging a complete result over an existing one gives that result |
| SummaryStore.AddFile | client/src/context/SummaryStore.ts:105-109 | addFile appends the file and changes nothing else |
| SummaryStore.RemoveFile | client/src/context/SummaryStore.ts:111-119 | the file and all its results go, and a current file or result belonging to it is cleared |
| SummaryStore.GetFileById | client/src/context/SummaryStore.ts:271-273 | absent exactly when no file has the id; otherwise the file at the least position whose id matches |
| SummaryStore.FindIndex | client/src/context/SummaryStore.ts:127 | the first index with that id, absent exactly when none has it |
| SummaryStore.GetResultById | client/src/context/SummaryStore.ts:275-277 | absent exactly when no result has the id; otherwise the result at the least position whose id matches |
| SummaryStore.GetResultsByFileId | client/src/context/SummaryStore.ts:279-281 | exactly the results of that file |
| SummaryStore.RemoveFileCascades | client/src/context/SummaryStore.ts:111-119 | after removal neither the file nor any of its results can be found, and the current file is not it |
| SummaryStore.AddResult | client/src/context/SummaryStore.ts:125-141 | a new id is appended; an existing id is merged in place |
| SummaryStore.AddResultUpserts | client/src/context/SummaryStore.ts:125-141 | unique ids stay unique, the result can be found by its id afterwards, and the length grows only for a new id |
| SummaryStore.UpdateResult | client/src/context/SummaryStore.ts:144-149 | only results with the id are merged; length and order are unchanged |
| SummaryStore.UpdateResultKeepsIds | client/src/context/SummaryStore.ts:144-149 | a patch without an id keeps every id, so unique ids stay unique |
| SummaryStore.RemoveResult | client/src/context/SummaryStore.ts:152-157 | the results with that id go and a matching current result is cleared |
| SummaryStore.RemoveAfterAdd | client/src/context/SummaryStore.ts:139-157 | removing a just-appended new result gives the old list back |
| SummaryStore.UpdateDocumentMetadata | client/src/context/SummaryStore.ts:178-189 | without metadata nothing changes; otherwise each field takes the patch's value when present and keeps the old one otherwise, and the update time is set |
| SummaryStore.MetadataUpdatesCompose | client/src/context/SummaryStore.ts:178-189 | two metadata updates are one update with the later patch laid over the earlier, at the later time |
| SummaryStore.EmptyMetadataPatch | client/src/context/SummaryStore.ts:178-189 | an empty patch changes only the update time |
| SummaryStore.Reset | client/src/context/SummaryStore.ts:267-269 | reset restores the initial state |
| SummaryStore.ResetForgets | client/src/context/SummaryStore.ts:267-281 | after reset no file or result can be found |
| Pagination.Range | client/src/components/library/flashcards/Pagination.tsx:27-29 | the consecutive pages from a to b |
| Pagination.Pages | client/src/components/library/flashcards/Pagination.tsx:20-57 | the page-list loop computes the same list as the functional definition |
| Pagination.FewPagesAllShown | client/src/components/library/flashcards/Pagination.tsx:25-29 | with at most seven pages the list is exactly 1..total |
| Pagination.Pieces | client/src/components/library/flashcards/Pagination.tsx:30-54 | with more pages the list is 1, an optional left gap, the middle run max(2,c-1)..min(t-1,c+1), an optional right gap and the last page |
| Pagination.ManyPagesEnds | client/src/components/library/flashcards/Pagination.tsx:32-53 | with more than seven pages the list starts with 1 and ends with the last page |
| Pagination.ManyPagesOrdered | client/src/components/library/flashcards/Pagination.tsx:40-45 | the real page numbers are strictly increasing and within 1..total |
| Pagination.ManyPagesGaps | client/src/components/library/flashcards/Pagination.tsx:34-50 | the left gap appears exactly when the current page is above 3, the right gap exactly when it is below total-2 |
| Pagination.CurrentPageShown | client/src/components/library/flashcards/Pagination.tsx:20-57 | a valid current page is always in the list |
| Pagination.PreviousTarget | client/src/components/library/flashcards/Pagination.tsx:69 | the previous button goes one page back, never below 1 |
| Pagination.NextTarget | client/src/components/library/flashcards/Pagination.tsx:115 | the next button goes one page on, never past the last |
| Pagination.NavigationStaysInRange | client/src/components/library/flashcards/Pagination.tsx:69-115 | both targets stay in 1..total; each stays put exactly at its end; next undoes previous except on page 1 |
| TextUtils.StripHtml | client/src/utils/summaryUtils.ts:50-53 | stripping never lengthens the text, leaves text without '<' as it is, and leaves no '<' followed later by '>' |
| TextUtils.StripHtmlKeepsPlain | client/src/utils/summaryUtils.ts:50-53 | text without tags is unchanged |
| TextUtils.StripHtmlIdempotent | client/src/utils/summaryUtils.ts:50-53 | stripping twice equals stripping once |
| TextUtils.StripHtmlDropsTag | client/src/utils/summaryUtils.ts:50-53 | a leading tag disappears and the rest is stripped as before |
| TextUtils.StripTagsLoose | client/src/lib/utils.ts:8-13 | the word-count tag removal leaves no '<' at all and keeps text without '<' |
| TextUtils.TruncateSummary | client/src/utils/summaryUtils.ts:39-43 | empty stays empty, short text is kept, longer text is its first max characters plus "..." |
| TextUtils.TruncateLabel | client/src/lib/utils.ts:29-32 | short text is kept; longer text is its stripped prefix plus "...", never longer than max+3 |
| TextUtils.TruncationsAgreeOnShortText | client/src/utils/summaryUtils.ts:39-43 | the two truncations agree and keep the text when it fits |
| TextUtils.FirstBreak | client/src/utils/summaryUtils.ts:72 | the first place a sentence end is followed by whitespace, absent exactly when there is none |
| TextUtils.SpaceRun | client/src/utils/summaryUtils.ts:72 | the length of the leading whitespace run |
| TextUtils.Sentences | client/src/utils/summaryUtils.ts:72 | the split is never empty and every piece but the last ends in a sentence mark |
| TextUtils.SummaryPreview | client/src/utils/summaryUtils.ts:61-81 | empty text gives ""; otherwise the first sentences of the tag-free text, as many as `slice(0, min(n, count))` keeps (a negative n drops that many from the end), joined by single spaces, kept whole up to 200 characters and otherwise cut to 200 plus "..."; never more than 203 characters |
| TextUtils.SliceEnd | client/src/utils/summaryUtils.ts:74-77 | a count that fits keeps that many sentences, a larger one keeps all, a negative one keeps all but that many from the end |
| TextUtils.SingleSentencePreview | client/src/utils/summaryUtils.ts:61-81 | a short, tag-free, single-sentence text is its own preview |
| TextUtils.LengthBadgeColor | client/src/utils/summaryUtils.ts:106-117 | fixed colours for short, medium and long, grey for anything else |
| TextUtils.BadgeColorsDistinct | client/src/utils/summaryUtils.ts:106-117 | the three known lengths get three different colours, none of them the fallback |
| TextUtils.FormatWordCount | client/src/utils/summaryUtils.ts:124-126 | below a thousand the label ends in " words" |
| TextUtils.WordCountReadsBack | client/src/utils/summaryUtils.ts:124-126 | the number in the label reads back as the count |
| TextUtils.CountWords | client/src/lib/utils.ts:8-13 | the count equals the number of word starts (a non-whitespace character at the start or after whitespace) in the tag-stripped text, and never exceeds the text's length |
| Common.WordsCount | client/src/lib/utils.ts:8-13 | the whitespace split yields exactly one word per word start |
| TextUtils.WordsCoverText | client/src/lib/utils.ts:8-13 | the words put together are exactly the text's non-whitespace characters |
| TextUtils.CountWordsOfBlank | client/src/lib/utils.ts:8-13 | blank text has no words |
| TextUtils.Initials | client/src/lib/utils.ts:61-68 | "" for an empty name; otherwise the upper-cased first characters of the first two non-empty space-separated parts, as many as there are up to two |
| TextUtils.TwoWordInitials | client/src/lib/utils.ts:61-68 | a first and last name give their two upper-cased first letters |
| TextUtils.AgoOf | client/src/lib/utils.ts:37-55 | under a minute is "just now"; then whole minutes below 60, hours below 24 and days below 30, each bracketed exactly; from 30 days on the date is printed |
| TextUtils.FormatRelativeTime | client/src/lib/utils.ts:37-56 | no date gives ""; under a minute "just now"; under an hour, a day and 30 days "N minute(s)", "N hour(s)" and "N day(s) ago" with N the whole units elapsed and the plural unless N is 1; from 30 days on the formatted date |
| TextUtils.FutureIsJustNow | client/src/lib/utils.ts:42-45 | a date in the future reads "just now" |
| TextUtils.MinuteWording | client/src/lib/utils.ts:46-48 | one minute reads "1 minute ago" and two read "2 minutes ago" |
| RouteGuard.Guard | client/src/middleware.ts:10-34 | a private path without a token goes to /auth; /auth with a token goes to /dashboard; everything else passes; each case both ways |
| RouteGuard.DashboardIsPrivate | client/src/middleware.ts:10-15 | /dashboard is not a public path |
| RouteGuard.RedirectsSettle | client/src/middleware.ts:22-34 | following a redirect with the same cookies lands on a page that passes, so there is no redirect loop |
| RouteGuard.PublicPagesPass | client/src/middleware.ts:10-34 | a public page other than /auth passes whatever the cookies |
| RouteGuard.OnlySignInRedirectsSignedIn | client/src/middleware.ts:28-34 | a signed-in visitor is redirected exactly on /auth |
| TokenCookies.First | server/services/gateway-service/src/main/java/com/studysolution/studysync/utils/CookieUtil.java:62-66 | the first value of a named cookie, when the cookie is present with at least one value |
| TokenCookies.Header | server/services/gateway-service/src/main/java/com/studysolution/studysync/utils/CookieUtil.java:72 | a header is found exactly when some header line carries its name in any case, and its value is that of the first such line |
| TokenCookies.HeaderIndexFirst | server/services/gateway-service/src/main/java/com/studysolution/studysync/utils/CookieUtil.java:72 | no header line before the one found carries the name |
| TokenCookies.HeaderIgnoresCase | server/services/gateway-service/src/main/java/com/studysolution/studysync/utils/CookieUtil.java:72 | looking a header up under two names that differ only in case gives the same value |
| TokenCookies.BearerToken | server/services/gateway-service/src/main/java/com/studysolution/studysync/utils/CookieUtil.java:73-76 | a token is read exactly from a "Bearer " header, and the header is the prefix followed by the token |
| TokenCookies.CookieToken | server/services/gateway-service/src/main/java/com/studysolution/studysync/utils/CookieUtil.java:62-68 | a cookie counts only when its value is not empty |
| TokenCookies.ExtractAccessToken | server/services/gateway-service/src/main/java/com/studysolution/studysync/utils/CookieUtil.java:88-110 | the access token comes from the first `Authorization` header (any case of the name) when it is a bearer header, and from the non-empty `accessToken` cookie otherwise |
| TokenCookies.ExtractRefreshToken | server/services/gateway-service/src/main/java/com/studysolution/studysync/utils/CookieUtil.java:58-78 | the refresh token comes from the non-empty `refreshToken` cookie first and the `Refresh-Token` bearer header (any case of the name) after it |
| TokenCookies.OppositePrecedence | server/services/gateway-service/src/main/java/com/studysolution/studysync/utils/CookieUtil.java:58-110 | with a token in both places, the access token comes from the header and the refresh token from the cookie |
| TokenCookies.LowerCaseAuthorization | server/services/gateway-service/src/main/java/com/studysolution/studysync/utils/CookieUtil.java:91-95 | a request whose only header is "authorization: Bearer t" yields the access token t |
| TokenCookies.IgnoredSources | server/services/gateway-service/src/main/java/com/studysolution/studysync/utils/CookieUtil.java:58-110 | for every request: there is no access token exactly when the first `Authorization` header is absent or not a bearer header and the `accessToken` cookie is absent, has no value or an empty first value; likewise for the refresh token with its cookie and `Refresh-Token` header |
| TokenCookies.MillisToSeconds | server/services/gateway-service/src/main/java/com/studysolution/studysync/utils/CookieUtil.java:25 | milliseconds to seconds truncating toward zero, as Java's long division does |
| TokenCookies.AccessTokenCookie | server/services/gateway-service/src/main/java/com/studysolution/studysync/utils/CookieUtil.java:19-27 | a secure, HTTP-only, strict cookie for the whole site whose lifetime is the milliseconds rounded down to seconds |
| TokenCookies.RefreshTokenCookie | server/services/gateway-service/src/main/java/com/studysolution/studysync/utils/CookieUtil.java:32-40 | the same for the refresh token |
| TokenCookies.ClearCookie | server/services/gateway-service/src/main/java/com/studysolution/studysync/utils/CookieUtil.java:45-52 | an empty value that expires at once, with the same flags |
| TokenCookies.CookieLifetime | server/services/gateway-service/src/main/java/com/studysolution/studysync/utils/CookieUtil.java:19-40 | a cookie never outlives its lifetime, and under a second it is already expired |
| TokenCookies.ClearReplacesTokenCookie | server/services/gateway-service/src/main/java/com/studysolution/studysync/utils/CookieUtil.java:19-52 | the clearing cookie matches the setting cookie in name, path and flags, so it replaces it |
| Summarizer.ConfigFor | server/services/ai-service/app/services/summarize_service.py:117-126 | the per-type chunk table, 1800/180 for unknown types, with overlap one tenth of the size |
| Summarizer.ChunkParams | server/services/ai-service/app/services/summarize_service.py:116-128 | both arguments given: used as they are; otherwise each falsy argument is replaced from the table |
| Summarizer.ChunkParamsDefaults | server/services/ai-service/app/services/summarize_service.py:116-128 | missing arguments give a positive table size; a zero size is replaced only when the overlap is missing too |
| Summarizer.PromptToUse | server/services/ai-service/app/services/summarize_service.py:174-176 | a non-empty user prompt is used, otherwise the default prompt |
| Summarizer.RefineRun | server/services/ai-service/app/services/summarize_service.py:178-193 | one call per document in order, each after the first refining the previous output; the result is the last output |
| Summarizer.Process | server/services/ai-service/app/services/summarize_service.py:152-231 | no documents give the fixed no-content text; refine runs the refine loop; few documents take one call; more are cut into ordered batches followed by one combining call |
| Summarizer.MapReduceCallCount | server/services/ai-service/app/services/summarize_service.py:203-231 | with n above the batch size there are ceil(n/b)+1 calls, and the batches put together give the documents back |
| Summarizer.RefineReplaces | server/services/ai-service/app/services/summarize_service.py:178-193 | refine returns only the last call's output; earlier outputs are replaced, not joined |
| Summarizer.ChooseStrategy | server/services/ai-service/app/services/summarize_service.py:503-512 | up to 5 chunks: refine over all of them; up to 20: map-reduce by 6; more: by 8 |
| Summarizer.StrategyFitsProcess | server/services/ai-service/app/services/summarize_service.py:503-543 | every chosen strategy meets the batching's precondition |
| Summarizer.TargetRange | server/services/ai-service/app/services/summarize_service.py:548-555 | the word range per length, medium for unknown lengths |
| Summarizer.AdjustmentBands | server/services/ai-service/app/services/summarize_service.py:557 | adjustment happens exactly below 0.8·min or above 1.2·max, stated in whole numbers |
| Summarizer.AdjustLength | server/services/ai-service/app/services/summarize_service.py:547-567 | an in-band summary is kept; otherwise the model's rewrite, or the original when the call fails |
| Summarizer.AdjustLengthSettles | server/services/ai-service/app/services/summarize_service.py:547-567 | a model that always answers within band leaves the result within band |
| Flashcards.SetMember | server/services/ai-service/app/services/flashcard_service.py:831-838 | setting a key makes it read back and leaves every other key as it was |
| Flashcards.CardsPerChunk | server/services/ai-service/app/services/flashcard_service.py:625 | the per-chunk request is the even share plus one, kept between 2 and 5 |
| Flashcards.PlanCoversTarget | server/services/ai-service/app/services/flashcard_service.py:625 | below five cards per chunk, asking every chunk for its share asks for more than the target |
| Flashcards.GenerateCards | server/services/ai-service/app/services/flashcard_service.py:632-649 | generation stops after the first chunk that brings the total to the target, and never earlier |
| Flashcards.FillDefaults | server/services/ai-service/app/services/flashcard_service.py:477-482 | a card gains difficulty and category only where missing; every other field is kept |
| Flashcards.BatchResult | server/services/ai-service/app/services/flashcard_service.py:506-535 | a batch keeps its originals unless it came back parsed and non-empty |
| Flashcards.Enhance | server/services/ai-service/app/services/flashcard_service.py:454-546 | no cards give none; more than 50 get defaults only; otherwise the flattened batch results, or the originals |
| Flashcards.EnhanceInBatches | server/services/ai-service/app/services/flashcard_service.py:506-546 | a model call that raises gives back all the original cards; otherwise the flattened batch results (each parsed batch, or the batch itself), unless they number fewer than 0.8 of the cards, when the originals are returned |
| Flashcards.EnhanceWithUselessModel | server/services/ai-service/app/services/flashcard_service.py:506-539 | a model whose answers never parse leaves the cards unchanged |
| Flashcards.EnhanceTakesParsedCards | server/services/ai-service/app/services/flashcard_service.py:506-539 | batches that all come back parsed at full size keep the card count |
| Flashcards.Store | server/services/ai-service/app/services/flashcard_service.py:697-708 | a stored card's front and back are the card's own (truthy) "front" and "back" values, and its difficulty and category are the card's, defaulting to "medium" and "general" |
| Flashcards.StoreCards | server/services/ai-service/app/services/flashcard_service.py:697-708 | one record per storable card, each with a truthy front and back; nothing is dropped exactly when every card is storable |
| Flashcards.StorableCards | server/services/ai-service/app/services/flashcard_service.py:700-702 | the cards kept are exactly the dictionaries with a truthy front and back |
| Flashcards.StoreCardsAt | server/services/ai-service/app/services/flashcard_service.py:697-708 | the i-th record is the i-th storable card, in order, stored |
| Flashcards.StoreCardsAppend | server/services/ai-service/app/services/flashcard_service.py:697-708 | each card is judged alone: storing distributes over concatenation |
| Flashcards.KeyValue | server/services/ai-service/app/services/flashcard_service.py:826-829 | a line has a key and a value exactly when it has a colon |
| Flashcards.FieldFor | server/services/ai-service/app/services/flashcard_service.py:831-838 | a key names one of front, back, difficulty and category, or none |
| Flashcards.ParseLine | server/services/ai-service/app/services/flashcard_service.py:825-838 | a line changes only the four card fields |
| Flashcards.Flush | server/services/ai-service/app/services/flashcard_service.py:820-822 | the card under construction is emitted exactly when it has a front and a back |
| Flashcards.ParseSections | server/services/ai-service/app/services/flashcard_service.py:817-842 | every emitted card has a front and a back |
| Flashcards.ManualParse | server/services/ai-service/app/services/flashcard_service.py:813-844 | the manual parser emits only cards that have both a front and a back |
| Flashcards.ExtractCards | server/services/ai-service/app/services/flashcard_service.py:776-844 | a JSON array found in the answer wins, then individual card objects, then the manual parser |
| Flashcards.ParseLineSets | server/services/ai-service/app/services/flashcard_service.py:831-838 | a line whose key names a field sets that field |
| Flashcards.TwoLineCard | server/services/ai-service/app/services/flashcard_service.py:813-844 | a front line followed by a back line parses to exactly that card |
| Flashcards.ManualParseRoundTrip | server/services/ai-service/app/services/flashcard_service.py:813-844 | writing a card as "Front: f" and "Back: b" and parsing it gives the card back |
| YouTube.ThirdPiece | server/services/ai-service/app/utils/youtube_utils.py:49-53 | for /embed/ and /v/ paths the id is the third slash-separated piece, which holds no slash |
| YouTube.ExtractVideoId | server/services/ai-service/app/utils/youtube_utils.py:32-63 | youtu.be gives the path after its first character; /watch gives a non-empty v parameter; /embed/ and /v/ give the third path piece; anything else gives none |
| YouTube.VideoIdRoundTrip | server/services/ai-service/app/utils/youtube_utils.py:46-59 | watch and short links always give the id back; embed links do for ids without a slash |
| YouTube.SegmentCount | server/services/ai-service/app/utils/youtube_utils.py:388 | the number of slices is at least 1, and at least 2 for a long transcript |
| YouTube.Slices | server/services/ai-service/app/utils/youtube_utils.py:388-407 | each slice has the segment length and its part number |
| YouTube.SliceAt | server/services/ai-service/app/utils/youtube_utils.py:391-393 | slice i is exactly characters i·size to (i+1)·size of the transcript |
| YouTube.SlicesCover | server/services/ai-service/app/utils/youtube_utils.py:388-407 | the slices put together are the transcript's first count·size characters |
| YouTube.TranscriptDocs | server/services/ai-service/app/utils/youtube_utils.py:383-419 | a transcript of at most 15000 characters is one document; a longer one is cut into at least two equal, numbered, contiguous slices |
| YouTube.LongTranscriptDropsRemainder | server/services/ai-service/app/utils/youtube_utils.py:388-393 | the slices followed by the last len mod count characters give the transcript back, so exactly that remainder is dropped |
| YouTube.SlicesAtLeastTenMinutes | server/services/ai-service/app/utils/youtube_utils.py:386-393 | every slice of a long transcript holds at least 7500 characters |
| YouTube.WithDescription | server/services/ai-service/app/utils/youtube_utils.py:422-428 | a description document is added exactly when the description is longer than 100 characters |
| YouTube.GroupFromPartition | server/services/ai-service/app/utils/youtube_utils.py:499-542 | grouping from an open group keeps every segment in order, keeps each group within the limits, and starts each new group exactly where the break rule fires |
| YouTube.GroupsPartition | server/services/ai-service/app/utils/youtube_utils.py:499-542 | the groups put together are the segments in order; a group never exceeds 20 segments or 600 seconds from its start; consecutive groups meet where the break rule fires |
| YouTube.GroupText | server/services/ai-service/app/utils/youtube_utils.py:522-527 | an empty group has no text and a single segment's text is its own |
| YouTube.ChunkDocs | server/services/ai-service/app/utils/youtube_utils.py:505-542 | there are exactly as many documents as groups whose joined text is non-empty |
| YouTube.WithText | server/services/ai-service/app/utils/youtube_utils.py:507-519 | a group is kept exactly when its joined text is non-empty |
| YouTube.ChunkDocsAt | server/services/ai-service/app/utils/youtube_utils.py:505-542 | document i, in order, comes from the i-th group with text: it holds that group's stripped text and starts at the group's first segment |
| YouTube.ChunkDocsAppend | server/services/ai-service/app/utils/youtube_utils.py:506-519 | closing one more group adds its document at the end, or nothing when its text is empty |
| YouTube.GroupSegments | server/services/ai-service/app/utils/youtube_utils.py:499-542 | the segment loop with its running text, start and count produces exactly the documents of the grouping |

## Left out

- Asynchronous concurrency in the connection manager and the endpoint: tasks, locks, sleeps, timeouts and interleavings. Each operation is one atomic state transition. A send is an append to the outbound log, and cancelling is a state change.
- WebSocket I/O, the heartbeat's timing and its sending loop. Only the interval choice is modelled.
- uuid4 and the clock. Generated ids come from a counter, which makes them distinct. Timestamps are a `clock` value held in the state.
- All language-model, speech-to-text, speech-synthesis, LangGraph and OCR calls. They are function parameters.
- `handle_presentation_completion`, `generate_comprehensive_feedback`: the handlers call them, but the voice-assistant service does not define them. The model therefore sends the handlers' error reply.
- The service's `presented_slides` bookkeeping. The code keeps no such field.
- Content loaders, MongoDB, Azure Blob and PDFBox storage, Eureka configuration, and the JWT and OAuth2 plumbing of the gateway: I/O outside the core.
- HTTP controllers, Feign clients and DTO classes. The React UI, axios services and contexts other than the summary store.
- `saveDocument`, `setCurrentFile`, `setCurrentResult`, `setIsProcessing`, `setEditorContent`, `setDocumentMetadata`, `setSaveStatus` of the summary store. `saveDocument` is a network call; the others are plain field assignments.
- `formatFileSize`, the "k" branch of `formatWordCount`, `formatDate`, `getContentTypeIcon`, `cn` and `delay`: floating-point formatting, date formatting or UI plumbing.
- The middleware's route-matcher configuration.
- Date parsing in `sortDocuments` and `formatRelativeTime`. Upload times are whole milliseconds.
- `localeCompare` is modelled as code-point order. Case mapping and whitespace are ASCII only.
- The regular expressions and `json.loads` of `extract_json_from_llm_response` and `parseMetadata`. They are parser parameters; only the manual fallback parser is modelled in full.
- `urlparse` and `parse_qs`: a URL arrives already split into host, path and query parameters.
- The YouTube Data API, the transcript fetch, audio download and Whisper itself. Segment start times are mathematical reals, not floats.
- Document metadata of the YouTube loader beyond the part a document stands for (whole, numbered segment, chunk start time, description).
- Summarizer.Process: requires a positive batch size on the map-reduce path with more documents than one batch. Python's `range` raises for a step of 0, and a negative step gives an empty range, so no batch is summarised; the model excludes both cases instead of modelling the exception and the empty run.
- Summarizer.AdjustmentBands: the 0.8 and 1.2 factors are stated exactly in integers (`5·count < 4·min`, `5·count > 6·max`), which agrees with the floating-point test on every whole word count.
- Flashcards.Enhance: `None` stands for the exception that filling defaults raises on a card that is not a dictionary.
- TextUtils.FormatWordCount: modelled only below a thousand words.
- TextUtils.TruncateSummary: lengths count Unicode scalar values; JavaScript's `length` and `substring` count UTF-16 code units, so text with characters outside the Basic Multilingual Plane is cut at a different place.
- TextUtils.TruncateLabel: the same difference in counting characters as TruncateSummary.
- TextUtils.SummaryPreview: the 200-character cut counts Unicode scalar values, not UTF-16 code units.
- TextUtils.Initials: takes the first Unicode scalar value of each word, where `charAt(0)` takes the first UTF-16 code unit (half of a surrogate pair for characters outside the Basic Multilingual Plane).
- Dispatch.HandleText: the operation id is a string (the frame's string id or a generated one); a frame whose `message_id` is a number or another JSON value echoes that value in Python, which the model does not carry.
- Dispatch.HandleText: a `text` value that is not a string is treated as no text; in Python a truthy non-string value would reach the conversation call, whose behaviour on it is not part of this model.
- Dispatch.PyStr: `repr` of a string escapes only the backslash, the enclosing quote, newline, carriage return and tab, and a decoded object keeps repeated keys rather than the last one only; other control characters and non-ASCII escapes are not modelled.
- Dispatch.RouteText: with an unhashable message id the model sends the server error directly; the wrapper task Python schedules before the failing dictionary store is not recorded.
- DocumentFilters.Sort: the contract states an ordered permutation; the order it leaves among documents with equal keys (which the stable `Array.prototype.sort` keeps) is not stated.
- Uploads.ConvertToView: the view type has an optional preview address; the source's null is `None`.

## Findings

| source | as written | input that shows it | evidently intended | confidence | as-written member | corrected member |
|---|---|---|---|---|---|---|
| server/services/ai-service/app/utils/websocket_manager.py:356-387 | recovery walks the live cache while its own sends append to it and trim it, so its own start marker is replayed and the completion count disagrees with what was sent | a session whose cache holds updates 1 and 2, where the client acknowledged update 1 | replay the cache as it stood when recovery began: start marker, update 2, a completion counting one | not executed | Connection.RecoverAsWrittenMiscounts | Connection.RecoverReplaysSuffix |
| server/services/ai-service/app/utils/websocket_manager.py:453-461 | the done callback deletes whatever task is filed under the ended task's id, including a newer task that reused the id | two tasks created under one message id (the endpoint files every heartbeat as "heartbeat"); the first ends, then the session disconnects | remove the entry only while it names the task that ended, so disconnect still cancels the newer task | not executed | Connection.ReusedIdOrphansTask | Connection.ReusedIdIsCancelled |
| server/services/ai-service/app/routes/web_sockets.py:396-398 | the endpoint's cleanup disconnects by session id, so an old connection's cleanup tears down the connection that replaced it | connect h1 and then h2 under one session id; the h1 endpoint then finishes | disconnect only while the endpoint's own handle is the live one | not executed | Dispatch.ReplacedCleanupDropsSuccessor | Dispatch.ReplacedCleanupKeepsSuccessor |
| client/src/utils/documentUtils.ts:88-95 | the category filter compares exact categories, while the picker offers only All, PDF, Image, Video and Other, so documents of the other named categories are never listed under any choice | a legacy Word upload (content type application/msword) | "Other" collects every document that is not a PDF, image or video | not executed | DocumentFilters.WordDocumentUnlisted | DocumentFilters.ChoicesPartition |
