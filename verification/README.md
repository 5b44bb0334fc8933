# Kanade: a verified model

Kanade plays one music library on many output nodes. This project models its hardest parts in Dafny and
proves what they promise.

- **Queue projection.** The server keeps a full queue per node and sends the node a suffix of it under a
  generation number, appends to that suffix, and maps the song index a node reports back to a queue index.
  `NodeQueue` holds what each command does to one node's queue, projection and channel; `Server.Core` is the
  object that does it for a map of nodes; `QueueCommands` says what each of them comes to, field by field; `PlayerProtocol` is the
  node's player. `Projection` runs server,
  channels and player against each other: messages arrive at the node in order, wait there for their URLs to
  be signed and are applied in any order, outputs refuse messages, connections drop, and the server restarts.
  `ProjectionRuns` has what plain runs keep and how the two sides come to agree; `ProjectionLimits`,
  `ProjectionGaps` and `ProjectionOvertaking` show that each rule of the safety theorem is exact. `QueueEditing` is about removing and moving entries while a
  projection is held.
- **Local sessions.** `LocalSessions` is the ownership protocol between WebSocket connections and local nodes;
  `SessionCommands` says what each command does to each node and owner.
- **The HLS remuxer.** `Segmenter` (greedy segments, segment writer), `Ogg` (pages, lacing, Opus headers),
  `FlacMetadata`, `FlacFrames` and `Crc8` (metadata blocks, frame search, header CRC, duration trim), `Pcm`
  (raw chunks, ALAC packets) and `HlsCache` (LRU eviction).
- **Smart playlists.** `SmartFilter` compiles a filter to a `WHERE` clause; `Sql` parses and evaluates that
  clause under three-valued logic; `Like` is SQLite's `LIKE` with an escape character.
- **Client and plugin state machines.** `SendQueue` (the offline send queue), `LocalPlayback` (the browser's
  playback controller) with `PlaybackCommands` (what each of its operations comes to), `Scrobbler` (the scrobble retry buffer), `PluginEvents` (states turned into events).

Objects whose methods update their fields are classes. Each method is proved against a function of the old
state. The lemmas are about that function: some say outright what it comes to, the others what follows from it. Randomness, clocks, the encoder's output, whether an output
accepts a message, and whether Last.fm takes a scrobble are parameters.

## What the proofs show that the code does not do

These are properties one would expect that fail for the code as it is. Each has its exact condition.

- Reports are safe in every careful run (`Projection.ProtocolIsSafe`), and each of the three rules of
  `Careful` is exact (`ProjectionLimits.CareIsExact`). What they come to:
  - `add_to_queue` and `add_tracks_to_queue` grow the queue before they tell the node. If the output refuses,
    the node's playlist stops short of the queue (`ProjectionGaps.GapIsReached`). A later addition that gets
    through is then safe for all that may follow exactly if it repeats the tracks standing there
    (`ProjectionGaps.RepeatingIsSafeExactly`), in every run without restarts or overtaking
    (`ProjectionGaps.PlainRuleIsExact`). Whether there is a gap, and which tracks those are, follows from what
    the server's own commands were answered (`ProjectionGaps.GapIsWhatWasRefused`).
  - The browser waits for each message's URLs by itself, so a later message can be applied first. With additions
    waiting, the k-th may go first exactly if that leaves what they add together as it is
    (`ProjectionOvertaking.AdditionMayGoFirstExactly`). A new queue may overtake additions exactly if they add
    nothing (`ProjectionOvertaking.QueueMayGoFirstExactly`), and an addition the queue it was to follow exactly if
    what the others add is a beginning of what all add; it is then lost
    (`ProjectionOvertaking.AdditionMayOvertakeQueueExactly`). Each case is reached from the start
    (`ProjectionOvertaking.OvertakingMisleads`, `ProjectionOvertaking.QueueOvertakingIsReached`,
    `ProjectionOvertaking.AdditionOvertakingIsReached`). Removals and moves do not wait at all. Applied before what
    was sent earlier, they make no difference exactly under the guards of `QueueEditing.RemovalOvertakesAdditions`,
    `QueueEditing.MoveOvertakesAdditions` and `QueueEditing.EditOvertakesNewQueue`.
  - A restarted server counts generations from 1 again, while an open page keeps its player and the messages that
    wait for signatures. Keeping them is safe exactly if, now and after each of those messages, the player's
    generation is older than the one the connection starts, or is that very one and its playlist agrees with the
    queue from its current entry on (`ProjectionLimits.KeepingIsCarefulExactly`).
    `ProjectionLimits.RestartMisleads` is a run in which it is neither.
- `remove_from_queue` and `move_in_queue` count positions from the current track, while the node counts from
  where its projection starts. They agree exactly under `RemovalFits` and `MoveFits`.
- Neither of them starts a new generation, so a report sent before is still taken after. It is right exactly if
  the removed entry came later (`QueueEditing.ReportAcrossRemoval`), or the move leaves the reported entry where
  it is (`QueueEditing.ReportAcrossMove`).
- A session started for a new device takes the id `local-` followed by the device id without looking whether
  it is in use. It displaces another owner exactly if the minted id is owned
  (`LocalSessions.StartDisplacesExactlyOnCollision`), which `LocalSessions.CollisionIsReached` reaches.
- The send queue is emptied whenever the socket closes, and every failed attempt to connect closes it. What an
  open sends is what was sent since the last close (`SendQueue.OpeningReplays`); one failed attempt loses
  everything that waits (`SendQueue.FailedAttemptLosesAll`). Merging two additions makes a difference exactly
  if the output does not treat them and the merged one alike (`SendQueue.MergedOutcomeDiffers`).
- The shuffle order is rebuilt with the current track first after every step. With two or more tracks and
  without repeat-one it therefore never ends (`LocalPlayback.ShuffleGoesOnExactly`), the previous button never
  goes back (`LocalPlayback.ShuffleNeverGoesBack`), and a track that is neither current nor up next may never be
  reached, however often one skips (`LocalPlayback.ShuffleMayPassOver`).
- The browser recognises its preloaded track by queue index alone. An edit that puts another track at that
  index leaves the old one preloaded (`LocalPlayback.PreloadIsDisplacedExactly`), and it is then played while
  another one is shown (`LocalPlayback.RemovedTrackIsPlayed`). Adding a track does not reconsider what comes
  next either (`LocalPlayback.AddedTrackIsPassedOver`), and repeat-one is ignored when preloading
  (`LocalPlayback.ReportMatchesExactly`). Without these three the player stays on the track that is shown
  (`LocalPlayback.RunsStayInTune`).
- A scrobble flush that starts while another still holds a scrobble can put a later scrobble before an earlier
  one, and only such a flush can (`Scrobbler.StartKeepsOrderExactly`).
- The frame search looks at fewer bits than section 9.1 of RFC 9639 fixes: 14 sync bits of 15, no reserved or
  forbidden code or block size, and only the first byte of a coded number. It finds every frame of the standard,
  and what it finds is one exactly if the remaining bits are right (`FlacFrames.StandardFramesAreFound`);
  `FlacFrames.NonstandardFrameIsFound` is one that is not.

## Model

| member | source | states |
|---|---|---|
| Projection.StepKeepsInv | kanade-core/src/controller.rs:128-200 | every enabled, careful step of server, channels or player, restarts and delayed signatures included, keeps the node in line: whatever it holds, will hold and has reported is older than the current generation or right for the projected part of the queue |
| Projection.InvMakesStepsSafe | kanade-core/src/controller.rs:128-182 | in such a state an index taken from a report selects the entry the node was playing when it sent it, and reports of older generations change nothing |
| Projection.RunsAreSafe | kanade-core/src/controller.rs:764-978 | safety at every step of every run from a state that satisfies the invariant |
| Projection.ProtocolIsSafe | kanade-core/src/controller.rs:128-200 | every careful run from the start, with any refusals, disconnects, restarts, delays and signing orders, is safe throughout |
| Projection.RebuildKeepsInv | kanade-core/src/controller.rs:1121-1187 | sending a new suffix under a new generation keeps the invariant, whether or not the output takes it |
| Projection.NewQueueKeepsInv | kanade-core/src/controller.rs:1121-1187 | replacing the queue keeps the invariant, whether or not the output takes the new one |
| Projection.AppendKeepsInv | kanade-core/src/controller.rs:951-978 | an addition keeps the invariant, one that is delivered past a gap if it leaves the node in line |
| Projection.NodeStepKeepsInv | kanade-web/src/lib/browser-node.svelte.ts:345-380 | arrival, application, auto-advance and reports keep the invariant |
| Projection.FirstIsApplied | kanade-web/src/lib/browser-node.svelte.ts:345-380 | applying what arrived first changes nothing about what the node will hold |
| Projection.ConnectKeepsInv | kanade-core/src/controller.rs:1189-1215 | an output that connects, with a fresh player or one kept with care, is brought up to date under a new generation |
| ProjectionRuns.AgreementIsReachable | kanade-core/src/controller.rs:128-182 | from every state that satisfies the invariant with a live, counted projection, deliveries and one report alone make the server's current track the one that is playing |
| ProjectionRuns.PlainRunsCanAgree | kanade-core/src/controller.rs:128-182 | so from every state of every plain run with a live projection |
| ProjectionRuns.PlainRunsAreSafe | kanade-core/src/controller.rs:188-200 | while the server stays up and messages are applied in the order of their arrival, every run is safe whatever players are kept, if only nothing is added past a gap but the tracks standing there |
| ProjectionRuns.PlainStepsStayOrderly | kanade-core/src/controller.rs:188-200 | a step of such a run is careful, and leaves everything at the node in line and no newer than the server, however much the server counts as loaded |
| ProjectionRuns.Settle | kanade-web/src/lib/audio-player.ts:127-153 | delivering everything in flight leaves the node with what it was due to hold and changes nothing else but the current index |
| ProjectionRuns.RunsKeepInv | kanade-core/src/controller.rs:764-978 | the invariant holds after every run |
| ProjectionGaps.AdditionPastGapMisleads | kanade-core/src/controller.rs:938-946 | past a gap, adding tracks that do not repeat those standing there leads to a careful run with a report that selects a track the node was not playing |
| ProjectionGaps.GapIsReached | kanade-core/src/controller.rs:938-946 | a run from the start that opens a gap |
| ProjectionGaps.RepeatingIsSafeExactly | kanade-core/src/controller.rs:938-978 | past a gap an addition is safe for all that may follow if and only if it repeats the tracks standing there |
| ProjectionGaps.PlainRuleIsExact | kanade-core/src/controller.rs:938-978 | at the end of every plain run an addition is safe for all that may follow if and only if it keeps to the rule |
| ProjectionGaps.GapIsWhatWasRefused | kanade-core/src/controller.rs:925-978 | in every plain run there is a gap if and only if the output took the last queue, which has a current entry, and refused tracks since; those are the tracks that may be added |
| ProjectionGaps.RefusedMayComeBack | kanade-core/src/controller.rs:925-978 | the refused tracks themselves are such tracks |
| ProjectionLimits.SafeExactlyInLine | kanade-core/src/controller.rs:128-182 | the invariant is the weakest there is: every careful run from a state is safe if and only if the state satisfies it |
| ProjectionLimits.CareIsExact | kanade-web/src/lib/browser-node.svelte.ts:345-380 | adding past a gap, applying a message early, or keeping a player across a connection, is safe for all that may follow if and only if it is careful |
| ProjectionLimits.KeepingIsCarefulExactly | kanade-core/src/controller.rs:188-200 | a kept player, with whatever waits for signatures, is careful exactly if at each stage its generation is older than the next one, or equal to it with a playlist that agrees with the queue |
| ProjectionLimits.RestartMisleads | kanade/src/main.rs:130-178 | a run with a restart from which keeping the player can mislead the server |
| ProjectionOvertaking.AdditionMayGoFirstExactly | kanade-web/src/lib/browser-node.svelte.ts:370-374 | of any number of waiting additions the k-th may be applied first if and only if that leaves what all of them add as it is |
| ProjectionOvertaking.OvertakingMisleads | kanade-web/src/lib/browser-node.svelte.ts:183-213 | a run from the start in which an addition overtakes another and the server can be misled |
| ProjectionOvertaking.QueueMayGoFirstExactly | kanade-web/src/lib/browser-node.svelte.ts:365-374 | a new queue waiting among any additions may be applied before those sent earlier if and only if they add nothing |
| ProjectionOvertaking.QueueOvertakingIsReached | kanade-web/src/lib/browser-node.svelte.ts:365-374 | a run from the start in which a new queue overtakes an addition and the server can be misled |
| ProjectionOvertaking.AdditionMayOvertakeQueueExactly | kanade-web/src/lib/browser-node.svelte.ts:365-374 | an addition sent after a waiting queue may be applied before it if and only if what the other additions add is a beginning of what all add; it is then lost, and leaves a gap |
| ProjectionOvertaking.AdditionOvertakingIsReached | kanade-web/src/lib/browser-node.svelte.ts:365-374 | a run from the start in which an addition overtakes a new queue and leaves a gap |
| QueueEditing.EditReachesTheNode | kanade-core/src/controller.rs:1000-1075 | the edit is the last message sent: a player that applies everything before it first gets the edit on what it then holds |
| QueueEditing.RemovalOvertakesAdditions | kanade-web/src/lib/browser-node.svelte.ts:365-380 | a removal applied before additions that wait leaves the same player if and only if the entry was there before and is not both the playing one and the last behind others, or is on neither playlist, or nothing is added |
| QueueEditing.MoveOvertakesAdditions | kanade-web/src/lib/browser-node.svelte.ts:365-380 | the same for a move: both places were there before, or one is on neither playlist, or only copies of one track other than the playing entry change places |
| QueueEditing.MoveChangesNothingExactly | kanade-web/src/lib/audio-player.ts:188-212 | a move leaves a list as it is if and only if everything it moves is equal |
| QueueEditing.EditOvertakesNewQueue | kanade-web/src/lib/browser-node.svelte.ts:365-380 | an edit applied before a new queue that waits is lost, which makes no difference if and only if it names an entry that is not there or is a move of copies that does not touch the first entry |
| QueueEditing.RemovalInStepExactlyWhenItFits | kanade-core/src/controller.rs:1000-1035 | after a removal the node's playlist and current entry match the server's if and only if the index fits the start of the projection |
| QueueEditing.MoveInStepExactlyWhenItFits | kanade-core/src/controller.rs:1037-1075 | the same for moves |
| QueueEditing.CurrentTrackStaysCurrent | kanade-core/src/controller.rs:1000-1075 | a move always, and a removal of another entry, keeps the current track current |
| QueueEditing.ReportAcrossRemoval | kanade-core/src/controller.rs:1000-1035 | a report from before a removal still selects the entry it meant exactly if the removed entry came later |
| QueueEditing.ReportAcrossMove | kanade-core/src/controller.rs:1037-1075 | a report from before a move still selects the entry it meant exactly if the move leaves that entry where it is |
| NodeQueue.SkipsAreInverse | kanade-core/src/controller.rs:764-876 | next and previous stay on the queue and undo each other outside repeat-one |
| QueueCommands.SkipsMean | kanade-core/src/controller.rs:764-876 | where next and previous lead for each repeat mode, with and without a current entry, and when they refuse |
| QueueCommands.JumpMeans | kanade-core/src/controller.rs:764-825 | playing from an entry makes it current, keeps the queue, counts a generation on and adds one message, the paths from that entry on |
| QueueCommands.ReplaceMeans | kanade-core/src/controller.rs:1121-1187 | a new queue and current entry where no node is connected or its output took it, and else only a new record |
| QueueCommands.ClearMeans | kanade-core/src/controller.rs:980-998 | the same for the empty queue |
| QueueCommands.AppendMeans | kanade-core/src/controller.rs:925-978 | the queue grows in any case; the message, and the tracks counted as loaded, only with an output that takes it |
| QueueCommands.ResyncMeans | kanade-core/src/controller.rs:1189-1215 | the queue stays, all of it counts as loaded, and the paths from the current entry on are sent |
| QueueCommands.StartMeans | kanade-core/src/controller.rs:719-735 | the first entry becomes current if none is, and nothing else changes |
| QueueCommands.RemoveMeans | kanade-core/src/controller.rs:1000-1035 | exactly that entry goes; the current one stays current, or its neighbour takes its place |
| QueueCommands.RemoveTells | kanade-core/src/controller.rs:1000-1035 | the place the node is told, counted from the current entry and never below zero, and one entry fewer loaded |
| QueueCommands.MoveMeans | kanade-core/src/controller.rs:1037-1075 | the entry is taken out and put in, the others in their order, and the current one stays current |
| QueueCommands.MoveTells | kanade-core/src/controller.rs:1037-1075 | the two places the node is told |
| QueueCommands.ObserveMeans | kanade-core/src/controller.rs:128-182 | a report moves the current index exactly if it is of the generation on record, counts as loaded and lies on the queue |
| PlayerProtocol.PlayerStaysPlaced | kanade-web/src/lib/audio-player.ts:155-212 | every message keeps the song index on the playlist, and edits to other entries keep the playing track playing |
| PlayerProtocol.StaysPlacedThroughout | kanade-web/src/lib/audio-player.ts:127-212 | the same over any sequence of messages |
| PlayerProtocol.QueueingMeans | kanade-web/src/lib/audio-player.ts:127-153 | a new queue starts at its first entry, and additions go to the end |
| PlayerProtocol.RemovingMeans | kanade-web/src/lib/audio-player.ts:155-186 | exactly that entry goes; the playing one plays on, or the next takes its place, or the last |
| PlayerProtocol.MovingMeans | kanade-web/src/lib/audio-player.ts:188-212 | the entry is taken out and put in, the others in their order, and what plays plays on |
| PlayerProtocol.EndingMeans | kanade-web/src/lib/audio-player.ts:41-59 | on to the next entry, and no further than the last |
| PlayerProtocol.MovedFrom | kanade-web/src/lib/audio-player.ts:188-212 | a move brings to every place the entry named by moving back |
| PlayerProtocol.MoveKeepsEveryEntry | kanade-core/src/controller.rs:1037-1075 | a move leaves every entry at the place that following it gives |
| PlayerProtocol.AudioPlayer.ReplaceQueue | kanade-web/src/lib/audio-player.ts:127-148 | playlist, index and generation are replaced together |
| PlayerProtocol.AudioPlayer.AddTracks | kanade-web/src/lib/audio-player.ts:150-153 | the playlist grows at the end and nothing else changes |
| PlayerProtocol.AudioPlayer.RemoveTrack | kanade-web/src/lib/audio-player.ts:155-186 | the spliced list and adjusted index are those of the protocol's removal; out of range is ignored |
| PlayerProtocol.AudioPlayer.MoveEntry | kanade-web/src/lib/audio-player.ts:188-212 | two splices and the branches on the index are a move that follows the playing entry |
| PlayerProtocol.AudioPlayer.HandleEnded | kanade-web/src/lib/audio-player.ts:41-59 | the index advances unless the last entry was playing |
| Server.Core.RebuildProjectionState | kanade-core/src/controller.rs:188-200 | the node's projection gets the next generation, and no other node is touched |
| Server.ActiveNodeMeans | kanade-core/src/controller.rs:671-682 | commands go to the selected node if it is known and connected; each other case has its error |
| Server.Core.SyncNodeState | kanade-core/src/controller.rs:128-182 | the current index changes only to the projected index of a report of the current generation, inside the loaded length and the queue |
| Server.Core.BuildQueueFilePaths | kanade-core/src/controller.rs:1251-1273 | the suffix of paths from the current index, or all of them |
| Server.Core.Next | kanade-core/src/controller.rs:764-825 | jumps to the next index for the repeat mode, which is then current, the queue being sent from there on; or reports an empty queue and changes nothing |
| Server.Core.Previous | kanade-core/src/controller.rs:827-876 | the same for the previous index |
| Server.Core.PlayIndex | kanade-core/src/controller.rs:1077-1119 | makes the index current, whether or not the output accepts, and sends exactly the paths from it on; or refuses one that is out of bounds |
| Server.Core.ReplaceQueue | kanade-core/src/controller.rs:1121-1187 | a connected node is told first; the queue follows only if that succeeded |
| Server.Core.ClearQueue | kanade-core/src/controller.rs:980-998 | projection, node and queue are emptied, in that order |
| Server.Core.AddTracks | kanade-core/src/controller.rs:925-978 | the queue grows even if the output refuses; the loaded length only if it accepts |
| Server.Core.SyncOutputToGlobal | kanade-core/src/controller.rs:1189-1215 | the node is sent the suffix at its current index under a new generation |
| Server.Core.RemoveFromQueue | kanade-core/src/controller.rs:1000-1035 | queue, current index, message and loaded length after a removal, and each refusal |
| Server.Core.MoveInQueue | kanade-core/src/controller.rs:1037-1075 | queue, current index and message after a move, and each refusal |
| Server.Core.PlayNode | kanade-core/src/controller.rs:719-735 | once the output has taken the command, a queue without a current entry starts at its first |
| LocalSessions.StepKeepsInv | kanade-adapter-ws/src/server.rs:1022-1140 | a step leaves owners and connections in agreement, ids unique and every owned node live, if and only if it is not a start that mints an id some node already has |
| LocalSessions.StepKeepsAgreementExactly | kanade-adapter-ws/src/server.rs:1022-1140 | a step leaves owners and connections in agreement if and only if it is not a start that mints an id another connection owns |
| LocalSessions.RunsKeepInv | kanade-adapter-ws/src/server.rs:1022-1140 | every interleaving of any number of connections in which each start finds a node or a free id keeps all three |
| LocalSessions.OwnershipIsConsistent | kanade-adapter-ws/src/server.rs:647-652 | in every run without a collision a connection remembers a node if and only if the table says it owns that node |
| LocalSessions.StartOwnsTheDevice | kanade-adapter-ws/src/server.rs:1022-1087 | a start is refused exactly if one of the device's nodes has another owner; otherwise the connection owns the only node of the device; another owner loses a node exactly if the start collides |
| LocalSessions.StartDisplacesExactlyOnCollision | kanade-core/src/controller.rs:345-408 | a start, with or without a device, takes a node from another owner, and breaks the agreement, if and only if the id it mints is already owned |
| LocalSessions.CollisionIsReached | kanade-core/src/controller.rs:345-408 | a run of three steps after which a start displaces another owner that still believes it has the node |
| LocalSessions.StartOnNodes | kanade-core/src/controller.rs:345-408 | starting leaves exactly one node of the device, connected and named, and every other live node; ids stay unique exactly if the start found a node or a free id |
| SessionCommands.DropMeans | kanade-core/src/controller.rs:425-440 | a dropped connection loses its node, which stays listed, local and as it was, but disconnected; every other node, owner and connection is unchanged |
| SessionCommands.DroppedIsCleanedUp | kanade-core/src/controller.rs:525-560 | once that node has been gone long enough the cleanup removes it |
| SessionCommands.CleanupMeans | kanade-core/src/controller.rs:525-560 | the cleanup removes exactly the local nodes that are disconnected and long gone |
| SessionCommands.StopMeans | kanade-adapter-ws/src/server.rs:1088-1102 | a stop takes exactly the connection's own node off the list and out of the owner table |
| SessionCommands.LostNodeIsForgotten | kanade-adapter-ws/src/server.rs:1088-1140 | a connection that lost its node only forgets it, on a stop as on an update |
| SessionCommands.UpdateMeans | kanade-adapter-ws/src/server.rs:1103-1140 | an owner's update marks its node connected and changes nothing else |
| SessionCommands.GoneNodeIsGivenUp | kanade-adapter-ws/src/server.rs:1103-1140 | an owner whose node is gone or no longer local gives it up |
| SessionCommands.StartsAnewMeans | kanade-core/src/controller.rs:345-408 | without a node of the device a start appends one, named after the device or at random, and the connection owns it |
| SessionCommands.CanonicalMeans | kanade-core/src/controller.rs:345-408 | of a device's nodes the first connected one is given back, or else the first |
| SessionCommands.StartsAgainMeans | kanade-core/src/controller.rs:345-408 | that node is then connected under the new name and owned, the device's others are gone, and no other node is touched |
| SessionCommands.HandOverMeans | kanade-adapter-ws/src/server.rs:1022-1087 | of the other owners a start takes away only the connection's own previous node |
| SessionCommands.RegisteringMeans | kanade-core/src/controller.rs:202-233 | an output is connected under its name at its place, or appended |
| LocalSessions.SessionServer.ConflictingOwner | kanade-adapter-ws/src/server.rs:1026-1041 | true exactly if some local node of the device has another owner |
| LocalSessions.SessionServer.CoreSessionStart | kanade-core/src/controller.rs:345-408 | duplicates of the device go, its canonical node is revived, or a new one is appended |
| LocalSessions.SessionServer.DispatchStart | kanade-adapter-ws/src/server.rs:1022-1087 | the whole start command, the refusal included |
| LocalSessions.SessionServer.DispatchStop | kanade-adapter-ws/src/server.rs:1088-1102 | only an owner removes its node; the connection forgets it either way |
| LocalSessions.SessionServer.DispatchUpdate | kanade-adapter-ws/src/server.rs:1103-1140 | an owner's node is marked connected; a lost or foreign one is forgotten |
| LocalSessions.SessionServer.Disconnect | kanade-adapter-ws/src/server.rs:647-652 | the node is released and marked disconnected, not removed |
| Segmenter.SplitIntoSegments | kanade-adapter-ws/src/hls.rs:518-565 | consecutive non-empty chunks over all samples, each of one entry, that end only at another entry or where the next sample would not fit behind what lasts some time already |
| Segmenter.OwnEntryCounts | kanade-adapter-ws/src/hls.rs:518-565 | a sample's own entry counts, and else the track's |
| Segmenter.GreedyIsASplit | kanade-adapter-ws/src/hls.rs:518-565 | when no sample exceeds the target, every chunk is within it |
| Segmenter.GreedyStaysAhead | kanade-adapter-ws/src/hls.rs:518-565 | the k-th chunk of any other split ends no later than the k-th greedy one |
| Segmenter.GreedyIsOptimal | kanade-adapter-ws/src/hls.rs:518-565 | no split within the target has fewer segments |
| Segmenter.WriteSegment | kanade-adapter-ws/src/hls.rs:425-515 | offsets and sizes locate every sample's bytes in the payload, and the entry on the first sample is right for all |
| Segmenter.WriteHlsOutput | kanade-adapter-ws/src/hls.rs:420-516 | succeeds exactly if there are samples and all have an entry; then the segments describe the chunks, their payloads together are all samples in order, and the playlist target is the largest rounded-up duration |
| Segmenter.CeilSecondsIsLeast | kanade-adapter-ws/src/hls.rs:498-504 | rounding up gives the least number of whole seconds that is enough |
| Segmenter.ExtInfShowsTheDuration | kanade-adapter-ws/src/hls.rs:498-504 | the playlist shows a segment's duration itself, or a millisecond for anything shorter |
| Segmenter.RoundedDurationWithinTarget | kanade-adapter-ws/src/hls.rs:498-504 | section 4.3.3.1 of RFC 8216: a segment's duration rounded to the nearest integer is at most the target duration |
| Ogg.SplitUndoesEncode | kanade-adapter-ws/src/hls.rs:1800-1867 | pages written one after the other, with fewer than a header's bytes behind them, are read back |
| Ogg.DelaceUndoesLacing | kanade-adapter-ws/src/hls.rs:1800-1867 | lacing values, multiples of 255 included, give back the packets |
| Ogg.DelaceConcat | kanade-adapter-ws/src/hls.rs:1800-1867 | de-lacing in two pieces is de-lacing in one, wherever the cut |
| Ogg.PacketsSurvivePaging | kanade-adapter-ws/src/hls.rs:1800-1867 | sections 5 and 6 of RFC 3533: however the lacing values are spread over pages, exactly the packets come back |
| Ogg.HeadersAreDropped | kanade-adapter-ws/src/hls.rs:1843-1867 | section 5 of RFC 7845: a head written with these channels and this pre-skip, low byte first, and tags give back both numbers and exactly the audio packets, in order |
| Ogg.HeadIsNeeded | kanade-adapter-ws/src/hls.rs:1843-1867 | a stream is refused for its head exactly if no packet is one |
| Ogg.LastHeadCounts | kanade-adapter-ws/src/hls.rs:1843-1867 | with several heads the numbers are those of the last |
| Ogg.MarksAreSpelled | kanade-adapter-ws/src/hls.rs:1800-1867 | the capture pattern and the two magics as text |
| Ogg.ReadPage | kanade-adapter-ws/src/hls.rs:1806-1825 | one page at an offset, or the reason why there is none |
| Ogg.DelacePage | kanade-adapter-ws/src/hls.rs:1827-1835 | one page's lacing continues the packets and the open packet of the pages before |
| Ogg.ParseOggOpusPackets | kanade-adapter-ws/src/hls.rs:1800-1867 | for every input: the first bad page's error, or the classification of the packets of all pages |
| Ogg.ClassifyPackets | kanade-adapter-ws/src/hls.rs:1843-1867 | headers taken out, the rest kept, or no head found |
| FlacMetadata.ParseStreamInfo | kanade-adapter-ws/src/hls.rs:1329-1354 | succeeds exactly for 34 bytes, with every field within its bit width; what the fields are is the next row |
| FlacMetadata.StreamInfoRoundTrip | kanade-adapter-ws/src/hls.rs:1329-1354 | section 8.2 of RFC 9639: parsing gives certain fields if and only if these, packed at 20, 3, 5 and 36 bits, are the bits of the block and the maximum block size is its third and fourth byte |
| FlacMetadata.ParseFlacMetadata | kanade-adapter-ws/src/hls.rs:1279-1327 | terminates on every input with the blocks, the last STREAMINFO and the audio offset, or the first error |
| FlacMetadata.LastStreamInfoCounts | kanade-adapter-ws/src/hls.rs:1279-1327 | of several STREAMINFO blocks the last one counts |
| FlacMetadata.BlockIsRefusedExactly | kanade-adapter-ws/src/hls.rs:1279-1327 | a block is refused exactly if its header or its contents are cut off |
| FlacMetadata.StreamInfoIsNeeded | kanade-adapter-ws/src/hls.rs:1279-1327 | a STREAMINFO of another size, and a file without one, are refused |
| FlacMetadata.ReadBackFrom | kanade-adapter-ws/src/hls.rs:1279-1327 | written blocks are read back from any offset, whatever follows |
| FlacMetadata.LayoutRoundTrip | kanade-adapter-ws/src/hls.rs:1279-1327 | section 8 of RFC 9639: writing then reading gives the blocks and the offset of the first byte after them |
| FlacMetadata.ReadingInvertsWriting | kanade-adapter-ws/src/hls.rs:1279-1327 | for every input that parses, writing the blocks gives back the bytes that were read, and exactly the last is flagged |
| FlacMetadata.RebuildDflaBlocks | kanade-adapter-ws/src/hls.rs:1266-1277 | the blocks with exactly the last one flagged |
| FlacMetadata.RebuiltBlocksRoundTrip | kanade-adapter-ws/src/hls.rs:1266-1327 | rebuilt blocks, however they were flagged, survive writing and reading |
| Crc8.FlacCrc8 | kanade-adapter-ws/src/hls.rs:1412-1425 | the bitwise loop computes the CRC that the following lemmas are about |
| Crc8.CrcOfOne | kanade-adapter-ws/src/hls.rs:1412-1425 | the CRC of the byte 1 is 7 |
| Crc8.CrcIsTheRemainder | kanade-adapter-ws/src/hls.rs:1412-1425 | section 9.1.8 of RFC 9639: an octet is the CRC if and only if it is the remainder of the message, times x^8, modulo x^8 + x^2 + x + 1 over GF(2) |
| Crc8.CrcIsLinear | kanade-adapter-ws/src/hls.rs:1412-1425 | the CRC of a sum of equally long inputs is the sum of their CRCs |
| Crc8.OwnCrcGivesZero | kanade-adapter-ws/src/hls.rs:1372-1383 | an input with one byte appended has CRC zero if and only if that byte is its CRC |
| Crc8.OneByteErrorIsCaught | kanade-adapter-ws/src/hls.rs:1372-1383 | equally long inputs that differ in one byte never share a CRC |
| Crc8.ValueOfOctet | kanade-adapter-ws/src/hls.rs:1412-1425 | bytes and their bits correspond one to one |
| FlacFrames.FindHeaderEnd | kanade-adapter-ws/src/hls.rs:1385-1410 | the end that the coded number and the size and rate codes give, or none |
| FlacFrames.FieldsCalledFor | kanade-adapter-ws/src/hls.rs:1385-1410 | how many bytes the size and rate codes call for |
| FlacFrames.EndIsFound | kanade-adapter-ws/src/hls.rs:1385-1410 | a header's end is found even where nothing follows it |
| FlacFrames.ValidateHeaderCrc | kanade-adapter-ws/src/hls.rs:1372-1383 | true exactly if the header ends inside the file and the next byte is its CRC |
| FlacFrames.FrameIsFoundExactly | kanade-adapter-ws/src/hls.rs:1356-1410 | sync bits with a matching CRC are there if and only if someone could have written a header with its CRC there |
| FlacFrames.StandardFramesAreFound | kanade-adapter-ws/src/hls.rs:1356-1410 | section 9.1 of RFC 9639: a frame header of the standard stands at an offset if and only if the search accepts it and what the search ignores is as the standard has it: sync, reserved and forbidden codes, continuation bytes, the length of a frame number and the block size 65536 |
| FlacFrames.NonstandardFrameIsFound | kanade-adapter-ws/src/hls.rs:1356-1410 | bytes that are found although their size, rate, channel and sample size codes and a sync bit are not of the standard |
| FlacFrames.HeaderConformsExactly | kanade-adapter-ws/src/hls.rs:1385-1410 | a header that stands in the file conforms to the standard if and only if these bit tests on the bytes hold |
| FlacFrames.FlacFrameStarts | kanade-adapter-ws/src/hls.rs:1356-1370 | the increasing list of exactly the offsets, from the audio on, at which a header with its CRC stands; jumping two bytes skips none |
| FlacFrames.HeaderIsRead | kanade-adapter-ws/src/hls.rs:1385-1410 | the fields of a written header are read back |
| FlacFrames.ParseFrameBlockSize | kanade-adapter-ws/src/hls.rs:1427-1477 | succeeds exactly if a header and a further byte are there, with the size its code stands for in section 9.1.1 of RFC 9639 |
| FlacFrames.BlockSizes | kanade-adapter-ws/src/hls.rs:1427-1477 | section 9.1.1 of RFC 9639: the table of block sizes |
| FlacFrames.NumberLengthCountsOnes | kanade-adapter-ws/src/hls.rs:1479-1499 | section 9.1.5 of RFC 9639: one byte without a leading one, two to seven with as many, and none with one or eight |
| FlacFrames.FramesDeclareTheirSize | kanade-adapter-ws/src/hls.rs:1427-1477 | at every frame start the parse succeeds on that frame's own header |
| FlacFrames.CutFrames | kanade-adapter-ws/src/hls.rs:676-692 | one sample per start, reaching to the next start or the end, lasting what its header declares; the fallback duration is never used |
| FlacFrames.TrimToTotal | kanade-adapter-ws/src/hls.rs:694-708 | too long a track is trimmed from the end to the larger of total and number of samples, none below 1; otherwise nothing changes |
| FlacFrames.TrimIsUnique | kanade-adapter-ws/src/hls.rs:694-708 | there is only one such trim |
| FlacFrames.OneByteErrorIsRefused | kanade-adapter-ws/src/hls.rs:1372-1383 | changing any one byte of a header, or its CRC, without changing the header's length makes the check fail |
| Pcm.PcmChunks | kanade-adapter-ws/src/hls.rs:970-1004 | consecutive ranges over exactly the data, only a last one unaligned, none above the chunk size and none below it unless less than a frame is left behind it, durations adding up to the ceiling of length over frame size |
| Pcm.NextChunk | kanade-adapter-ws/src/hls.rs:985-992 | whole frames up to the chunk size, or the broken rest; so every step makes progress |
| Pcm.PcmToAlacBytes | kanade-adapter-ws/src/hls.rs:1118-1136 | every sample's value, read in the encoder's byte order, is its value in the source's; unsupported depths are refused |
| Pcm.SwapTwice | kanade-adapter-ws/src/hls.rs:1129-1135 | swapping whole samples twice is the identity |
| Pcm.EncodePackets | kanade-adapter-ws/src/hls.rs:1052-1073 | the samples index the encoded packets without gaps, and their durations add up to the number of frames |
| Pcm.RemuxPcmAsAlac | kanade-adapter-ws/src/hls.rs:1006-1087 | each refusal, and otherwise packets of input with the same sample values lasting exactly the frames of the source |
| Pcm.BitDepths | kanade-adapter-ws/src/hls.rs:1118-1136 | sample sizes and byte orders for 16, 20, 24 and 32 bits; other depths are refused |
| Pcm.ChunkIsASegmentLong | kanade-adapter-ws/src/hls.rs:970-1004 | a chunk holds the frames of so many seconds, and at least one |
| Pcm.FirstByteWeighsMost | kanade-adapter-ws/src/hls.rs:1129-1135 | a big-endian value, from its first byte on |
| Pcm.LastByteWeighsMost | kanade-adapter-ws/src/hls.rs:1129-1135 | a little-endian value, from its last byte back |
| Pcm.SampleValueAt | kanade-adapter-ws/src/hls.rs:1118-1136 | the k-th value is that of the k-th group of bytes |
| Pcm.PacketIsOfItsStretch | kanade-adapter-ws/src/hls.rs:1052-1073 | the k-th packet is encoded from the k-th stretch of the input |
| HlsCache.Cache.CollectCacheEntries | kanade-adapter-ws/src/hls.rs:1941-1978 | every entry is listed once, with its size and access time, in any order |
| HlsCache.Cache.EnforceSizeLimit | kanade-adapter-ws/src/hls.rs:1913-1939 | the limit holds or only the preserved entry is left; the evicted are no newer than the kept; keeping the last of them would break the limit |
| HlsCache.SortSorts | kanade-adapter-ws/src/hls.rs:1924-1924 | the sort orders by access time and keeps every entry |
| HlsCache.RecentEntriesStay | kanade-adapter-ws/src/hls.rs:1913-1939 | an entry that fits the limit together with all as recent, and the preserved one, is never evicted |
| HlsCache.Cache.GetOrGenerate | kanade-adapter-ws/src/hls.rs:156-208 | evict, look up, and on a miss generate, store and evict again with the new entry preserved |
| HlsCache.ServingIsTransparent | kanade-adapter-ws/src/hls.rs:156-208 | the answer is what generating would give, an error included; a returned entry is stored with the new access time, and the limit holds but for an entry too large alone |
| HlsCache.RunIsTransparent | kanade-adapter-ws/src/hls.rs:156-208 | the same for every request of every sequential run |
| Like.EscapeLike | kanade-db/src/repo.rs:1158-1170 | a backslash before each backslash, percent and underscore |
| Like.EscapedIsLiteral | kanade-db/src/repo.rs:1156-1170 | an escaped string in front of any pattern matches exactly itself, up to ASCII case |
| Like.SameExactly | kanade-db/src/repo.rs:979-988 | two characters match exactly if they are the same or the two cases of one of the 26 letters |
| Like.StartsPattern | kanade-db/src/repo.rs:986-986 | escaped then percent means starts with |
| Like.EndsPattern | kanade-db/src/repo.rs:987-987 | percent then escaped means ends with |
| Like.ContainsPattern | kanade-db/src/repo.rs:982-985 | escaped between percents means contains |
| SmartFilter.BindCondition | kanade-db/src/repo.rs:979-988 | the value itself, or the value escaped with percents as the operator asks |
| SmartFilter.ClauseParses | kanade-db/src/repo.rs:998-1011 | the joined text parses, with SQL's precedences, to the parts joined left to right, the n-th part using the n-th parameter |
| SmartFilter.PartMeans | kanade-db/src/repo.rs:977-1005 | a part is true where its condition holds and false otherwise, null fields included; it is never unknown |
| SmartFilter.ClauseMeans | kanade-db/src/repo.rs:971-1035 | under three-valued logic the clause is true of a row exactly if the filter, read directly, accepts it |
| SmartFilter.ClauseSelects | kanade-db/src/repo.rs:971-1035 | the query returns exactly the accepted rows, and is neither a syntax error nor short of parameters |
| SmartFilter.EvaluateSmartFilter | kanade-db/src/repo.rs:963-1044 | the loop over the conditions returns the accepted rows; none for a filter without conditions |
| SendQueue.ServerIsAdditive | kanade-web/src/lib/ws.svelte.ts:327-346 | on the server's queue, its projection record and the player, two additions have the effect of one, whether outputs take them or refuse them |
| SendQueue.MergedOutcomeDiffers | kanade-web/src/lib/ws.svelte.ts:327-346 | where outputs decide for each message, merging two additions makes no difference exactly if both and the merged one are all taken or all refused |
| SendQueue.AdditionsJoin | kanade-web/src/lib/ws.svelte.ts:327-346 | an addition right behind another joins it, for each pair of the two commands |
| SendQueue.OthersAreAppended | kanade-web/src/lib/ws.svelte.ts:316-356 | anything else goes to the end, and where 200 wait the oldest request goes first, or else the oldest message |
| SendQueue.LinkMeans | kanade-web/src/lib/ws.svelte.ts:82-178 | what sending, opening, closing, disconnecting and losing the network do to the link, the queue and what was sent |
| SendQueue.CommandsOnServer | kanade-core/src/controller.rs:764-1119 | what each command does to the queue and the current entry where the output takes everything |
| SendQueue.CoalescingIsInvisible | kanade-web/src/lib/ws.svelte.ts:327-346 | for any state on which additions add up, merging changes neither the final state nor what any request sees |
| SendQueue.BoundedExactlyWhenItOverflows | kanade-web/src/lib/ws.svelte.ts:316-356 | at most 200 messages wait, and the bound interferes if and only if more remain after merging |
| SendQueue.QueueReplays | kanade-web/src/lib/ws.svelte.ts:124-131 | between two closes and short of overflow, what is flushed has the effect of everything sent, in order |
| SendQueue.OfflineCommandsReplay | kanade-web/src/lib/ws.svelte.ts:124-131 | the same for the server's playback queue, whether the output takes additions or not |
| SendQueue.QueueHoldsWaiting | kanade-web/src/lib/ws.svelte.ts:161-178 | over any run of sends, opens, closes, disconnects and network losses the queue holds what was sent offline since the last close |
| SendQueue.WaitingIsAllExactly | kanade-web/src/lib/ws.svelte.ts:161-178 | that is everything sent offline since the last open if and only if no close came after some of it |
| SendQueue.OpeningReplays | kanade-web/src/lib/ws.svelte.ts:124-131 | an open sends exactly the queue, with the effect of the messages since the last close, which are all if and only if none was lost to a close |
| SendQueue.FailedAttemptLosesAll | kanade-web/src/lib/ws.svelte.ts:161-178 | one failed attempt to connect loses everything that waits |
| SendQueue.LosslessRunsReplay | kanade-web/src/lib/ws.svelte.ts:124-178 | in every run without overflow in which no close finds something waiting, the server sees the effect of everything ever sent, in order |
| SendQueue.DropSparesCommands | kanade-web/src/lib/ws.svelte.ts:348-356 | while a request is queued, making room drops no command |
| SendQueue.OverflowSparesTheState | kanade-web/src/lib/ws.svelte.ts:316-356 | while every message finds room once requests are given up, overflow does not change the final state |
| SendQueue.PushSparesExactly | kanade-web/src/lib/ws.svelte.ts:316-356 | within the bound, putting a message in the queue costs no command if and only if it merges or fewer than 200 commands wait |
| SendQueue.OverflowSparesExactly | kanade-web/src/lib/ws.svelte.ts:316-356 | over all messages no command is lost if and only if that was so for each |
| SendQueue.FewCommandsAreSpared | kanade-web/src/lib/ws.svelte.ts:316-356 | it is, with fewer than 200 commands after merging |
| SendQueue.WsClient.SendCommand | kanade-web/src/lib/ws.svelte.ts:290-293 | sent at once when connected, otherwise queued; no pending request is lost track of |
| SendQueue.WsClient.SendRequest | kanade-web/src/lib/ws.svelte.ts:295-314 | gets a fresh id, is pending, and is sent or queued |
| SendQueue.WsClient.QueueMessage | kanade-web/src/lib/ws.svelte.ts:316-325 | merges, or makes room and pushes; the request given up, if any, is settled and no other |
| SendQueue.WsClient.MergeQueuedAddCommand | kanade-web/src/lib/ws.svelte.ts:327-346 | merges exactly two additions in a row, first tracks first |
| SendQueue.WsClient.DropOldestQueuedMessage | kanade-web/src/lib/ws.svelte.ts:348-356 | removes the oldest request, or else the oldest message, and rejects a dropped request |
| SendQueue.WsClient.Flush | kanade-web/src/lib/ws.svelte.ts:124-131 | everything waiting is sent in order, and every pending request is then sent |
| SendQueue.WsClient.Closed | kanade-web/src/lib/ws.svelte.ts:161-178 | a close, a failed attempt or a missed heartbeat empties the queue and settles every pending request |
| SendQueue.WsClient.Disconnected | kanade-web/src/lib/ws.svelte.ts:217-242 | a disconnect settles every pending request and keeps the queue |
| LocalPlayback.ShuffleOrderIsPermutation | kanade-web/src/lib/local-playback.ts:510-530 | whatever is drawn, the order holds every index once, the current one first |
| LocalPlayback.EveryOrderCanBeDrawn | kanade-web/src/lib/local-playback.ts:510-530 | every permutation that starts at the current index is the order for some draws |
| LocalPlayback.DoKeepsValid | kanade-web/src/lib/local-playback.ts:111-211 | after every operation the current index is absent with an empty queue, else on it, and the shuffle order fits |
| LocalPlayback.RunsStayValid | kanade-web/src/lib/local-playback.ts:111-290 | the same after every run |
| LocalPlayback.EditsKeepTheTrack | kanade-web/src/lib/local-playback.ts:141-197 | moves, and removal of another entry, keep the current track and reload nothing |
| LocalPlayback.ShuffleGoesOnExactly | kanade-web/src/lib/local-playback.ts:397-453 | with shuffle, next and a track end change the current entry if and only if there are two tracks and repeat-one is off, and stop if and only if the queue is empty or has one track and repeat is off |
| LocalPlayback.ShuffleNeverGoesBack | kanade-web/src/lib/local-playback.ts:413-426 | with shuffle, previous changes nothing |
| LocalPlayback.ShuffleMayPassOver | kanade-web/src/lib/local-playback.ts:510-530 | for any number of skips there are draws under which a given track, neither current nor up next, is never reached |
| LocalPlayback.BackUndoesNext | kanade-web/src/lib/local-playback.ts:397-426 | in queue order, previous undoes next |
| PlaybackCommands.QueueOrderGoesOn | kanade-web/src/lib/local-playback.ts:397-453 | in queue order next and a track end go one on, wrap under repeat-all, stay under repeat-one, and stop where they are on an empty queue and at the end |
| PlaybackCommands.ShuffleGoesOn | kanade-web/src/lib/local-playback.ts:397-453 | with shuffle they go to the second entry of the order |
| PlaybackCommands.QueueOrderGoesBack | kanade-web/src/lib/local-playback.ts:264-277 | previous goes one back, unless the track is well under way or the first |
| PlaybackCommands.PlayTracksMeans | kanade-web/src/lib/local-playback.ts:111-116 | the tracks are played from the start index or the nearest there is |
| PlaybackCommands.JumpMeans | kanade-web/src/lib/local-playback.ts:206-211 | an entry of the queue is opened, any other index ignored |
| PlaybackCommands.PlayMeans | kanade-web/src/lib/local-playback.ts:213-229 | a stopped player opens the current entry |
| PlaybackCommands.AdditionMeans | kanade-web/src/lib/local-playback.ts:118-139 | tracks go to the end; the first ones of an empty queue are opened but not played |
| PlaybackCommands.RemovalMeans | kanade-web/src/lib/local-playback.ts:141-174 | exactly that entry goes, the current one stays or its neighbour is opened, and playback is touched only if another track is current |
| PlaybackCommands.MoveMeans | kanade-web/src/lib/local-playback.ts:176-197 | the entry is taken out and put in, the current one stays current, and playback is untouched |
| PlaybackCommands.ClearingMeans | kanade-web/src/lib/local-playback.ts:199-204 | queue and order are empty and the player stops |
| PlaybackCommands.ReportMeans | kanade-web/src/lib/local-playback.ts:292-314 | a report changes the status and, only if it is of playing, what is preloaded |
| PlaybackCommands.NextIsAskedFor | kanade-web/src/lib/local-playback.ts:455-486 | the entry that comes next is asked for unless it is preloaded |
| PlaybackCommands.AnswerMeans | kanade-web/src/lib/local-playback.ts:487-501 | an answer preloads the entry asked for under the three tests, and ends the request |
| PlaybackCommands.RepeatMeans | kanade-web/src/lib/local-playback.ts:279-283 | only the mode changes, and what is preloaded |
| PlaybackCommands.ShuffleMeans | kanade-web/src/lib/local-playback.ts:285-290 | only the mode and the order change, and what is preloaded |
| LocalPlayback.InTuneExactly | kanade-web/src/lib/local-playback.ts:324-395 | every operation leaves the player on the track shown, except exactly a track end with the wrong one preloaded |
| LocalPlayback.RunsStayInTune | kanade-web/src/lib/local-playback.ts:324-395 | the player is on the track shown after every run in which, at each track end, the controller has looked at what comes next since the last edit, no edit has displaced the preloaded track, and the mode is not repeat-one |
| LocalPlayback.ReportMatchesExactly | kanade-web/src/lib/local-playback.ts:455-501 | after a report of playing and the answer of the signing server the right track is preloaded, unless repeat-one is set and another track comes next |
| LocalPlayback.PreloadIsDisplacedExactly | kanade-web/src/lib/local-playback.ts:467-488 | which operations leave a wrong track preloaded, or about to be, and no others |
| LocalPlayback.RemovedTrackIsPlayed | kanade-web/src/lib/local-playback.ts:467-469 | removing the track that is up next: it is played anyway, while its successor is shown |
| LocalPlayback.AddedTrackIsPassedOver | kanade-web/src/lib/local-playback.ts:118-127 | adding at the end of a queue about to repeat: the first track is played while the added one is shown |
| LocalPlayback.Controller.BuildShuffleOrder | kanade-web/src/lib/local-playback.ts:510-530 | the in-place swap loop gives the order that the permutation lemma is about |
| LocalPlayback.Controller.PlayTracks | kanade-web/src/lib/local-playback.ts:111-116 | queue replaced, start clamped, order rebuilt, track loaded |
| LocalPlayback.Controller.AddToQueue | kanade-web/src/lib/local-playback.ts:118-127 | queue grown; the first track becomes current |
| LocalPlayback.Controller.AddTracksToQueue | kanade-web/src/lib/local-playback.ts:129-139 | the same for several |
| LocalPlayback.Controller.RemoveFromQueue | kanade-web/src/lib/local-playback.ts:141-174 | queue, index and order after a removal; reloads exactly if the current id changed |
| LocalPlayback.Controller.MoveInQueue | kanade-web/src/lib/local-playback.ts:176-197 | queue and index after a move that follows the current entry |
| LocalPlayback.Controller.JumpToIndex | kanade-web/src/lib/local-playback.ts:206-211 | index set and loaded, or ignored out of range |
| LocalPlayback.Controller.Play | kanade-web/src/lib/local-playback.ts:213-229 | a stopped player loads the current track |
| LocalPlayback.Controller.Next | kanade-web/src/lib/local-playback.ts:255-262 | advances as the two rows on going on say, and loads, or stops |
| LocalPlayback.Controller.Previous | kanade-web/src/lib/local-playback.ts:264-277 | goes back and loads, or only seeks |
| LocalPlayback.Controller.SetRepeat | kanade-web/src/lib/local-playback.ts:279-283 | mode set, preload reconsidered |
| LocalPlayback.Controller.SetShuffle | kanade-web/src/lib/local-playback.ts:285-290 | order rebuilt or dropped, preload reconsidered |
| LocalPlayback.Controller.SyncFromPlayerState | kanade-web/src/lib/local-playback.ts:292-314 | status taken over; playing reconsiders the preload |
| LocalPlayback.Controller.HandleTrackEnd | kanade-web/src/lib/local-playback.ts:372-395 | the player goes on to a preloaded track by itself, and the controller advances as those rows say |
| LocalPlayback.Controller.UpdatePreloadIfNeeded | kanade-web/src/lib/local-playback.ts:455-486 | cleared, kept by index, or dropped and a signature asked for |
| LocalPlayback.Controller.PreloadIsSigned | kanade-web/src/lib/local-playback.ts:487-501 | the entry is preloaded if the same track is current, the same index comes next and a URL was given; otherwise the request is dropped |
| Scrobbler.StepConserves | kanade-plugin-lastfm/src/lib.rs:156-187 | no step of any flush or submission loses or duplicates a queued scrobble |
| Scrobbler.StartTakesFifty | kanade-plugin-lastfm/src/lib.rs:156-163 | a flush takes the first fifty of what is pending, or all of it |
| Scrobbler.FailuresAreTheRefused | kanade-plugin-lastfm/src/lib.rs:163-187 | of a batch exactly the refused ones go back, in order |
| Scrobbler.RunsConserve | kanade-plugin-lastfm/src/lib.rs:123-187 | in every interleaving what was queued is accepted on retry, in a batch, or pending, each as often as it was queued |
| Scrobbler.StepKeepsLine | kanade-plugin-lastfm/src/lib.rs:156-187 | a careful step appends a new arrival to the line of what waits, takes one out that got through, or leaves the line as it is |
| Scrobbler.LoneFlushesKeepOrder | kanade-plugin-lastfm/src/lib.rs:156-187 | while no flush starts with another holding a scrobble, what waits is in the order in which it first failed, whatever arrives meanwhile |
| Scrobbler.StartKeepsOrderExactly | kanade-plugin-lastfm/src/lib.rs:181-186 | starting a flush keeps everything in order, however careful steps go on, if and only if no flush under way still holds a scrobble |
| Scrobbler.OverlapReorders | kanade-plugin-lastfm/src/lib.rs:181-186 | a run in which two flushes overlap and two scrobbles change places |
| Scrobbler.RetryBuffer.FlushPendingScrobbles | kanade-plugin-lastfm/src/lib.rs:156-187 | a lone flush puts the failures of the first 50 back in order, ahead of the rest |
| Scrobbler.LoneFlushSteps | kanade-plugin-lastfm/src/lib.rs:156-187 | step by step, an uninterrupted flush does what the method does |
| PluginEvents.PluginBridge.Diff | kanade-core/src/plugin.rs:85-155 | the events of one state change, and the tracks marked as scrobbled |
| PluginEvents.DueExactly | kanade-core/src/plugin.rs:137-150 | a track is due exactly if it is longer than half a minute, playing, and half of it or four minutes have been played |
| PluginEvents.ScrobbleIsTold | kanade-core/src/plugin.rs:137-150 | what is due is told exactly if it has not been scrobbled before |
| PluginEvents.ChangesAreTold | kanade-core/src/plugin.rs:85-109 | a change is told exactly if the global index moved to a track |
| PluginEvents.StatusIsTold | kanade-core/src/plugin.rs:110-136 | pausing, resuming and stopping are each told in exactly these cases |
| PluginEvents.EventsComeInOrder | kanade-core/src/plugin.rs:85-155 | a change, then a status, then a scrobble, and at most one of each |
| PluginEvents.ScrobbledOnceExactlyWhenDue | kanade-core/src/plugin.rs:85-155 | over a whole run a track is scrobbled once if it was ever due, and otherwise never |

## Left out

- Server.Core.RebuildProjectionState: does not model the 64-bit wrap-around of the generation, which takes 2^64 rebuilds to reach; it is a `nat`.
- Server.Core.SyncNodeState: does not model status, position and volume, nor the checked addition of machine words.
- Server.Core.SyncOutputToGlobal: sets the loaded length to that of the whole queue, as the code does; the invariant needs it only as an upper bound.
- Server.Core.AddTracks: stands for `add_to_queue` as well, which differs only in taking one track.
- Projection.ProtocolIsSafe: a start index is taken to be on the queue, each server command to be one step, and a node's player to read index and generation together; removing and moving entries are not steps of these runs (`QueueEditing` is about them); nor is choosing another node, handing playback over or migrating a queue.
- ProjectionLimits.RestartMisleads: what a restart restores of the queue is any list of tracks with the current index inside it; the database between is not modelled.
- LocalSessions.StartOwnsTheDevice: the queue index and status in a session update are stored unread.
- Segmenter.SplitIntoSegments: the target in timescale units is a parameter of at least 1; durations are whole units.
- Segmenter.WriteHlsOutput: segment headers, the init segment and the playlist text come from libraries; seconds are reals.
- Ogg.ParseOggOpusPackets: page checksums, serial numbers and granule positions are not looked at by the code either; Opus packet durations are not part of this model.
- FlacFrames.FlacFrameStarts: a stretch of audio data that happens to look like a header with its CRC counts as a frame, in the code as here.
- ProjectionOvertaking.QueueMayGoFirstExactly: is about one waiting queue, the last one sent; with older queues waiting as well the rule is the general one of `ProjectionLimits.CareIsExact`.
- FlacFrames.StandardFramesAreFound: is about what section 9.1 of RFC 9639 says of a header by itself; that a coded number is in its shortest form, counts up from frame to frame, and that fields agree with STREAMINFO, is not part of it.
- FlacFrames.TrimToTotal: durations are unbounded numbers; the code's 32-bit ones fit because a frame has at most 65536 samples.
- Pcm.PcmChunks: the saturating multiplication and the 32-bit cast of a duration are left out.
- Pcm.EncodePackets: the ALAC encoder is an arbitrary function of the packet's number and samples.
- HlsCache.Cache.GetOrGenerate: one request at a time; generating is a fixed function of the key; the access stamp's own bytes and directories without a playlist are left out.
- SmartFilter.EvaluateSmartFilter: the SQL text is a list of tokens; ordering, the row limit, NUL characters and SQLite's own limits are left out.
- SendQueue.WsClient.SendRequest: the ten-second timer is `Settle`, which may be called at any time; when to reconnect, `reconnectTo` and batching of URL signing are left out.
- LocalPlayback.Controller.PreloadIsSigned: stands for an answer without a URL and for a failed request alike; a request given up has no answer.
- LocalPlayback.RunsStayInTune: a track to be loaded is taken to be signed and opened at once; failing loads, seeking, volume and positions are left out.
- Scrobbler.RunsConserve: a submission's first attempt is the action that fails; timestamps are part of the scrobble, and now-playing updates are left out.
- PluginEvents.PluginBridge.Diff: durations and positions are reals.
- The MPD poller reads status and generation in separate steps, so report safety is stated only for the browser player.
- Sockets, HTTP, SOAP, serialisation, URL signing, database migrations and full-text search, the scanner and the user interfaces.
