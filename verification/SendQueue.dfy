/** The web client's queue of messages waiting for a connection: additions are merged, the length
    is bounded, and requests are given up first. */
module SendQueue {
  import opened Wrappers
  import opened PlayerProtocol
  import opened NodeQueue

  const MAX_QUEUED_MESSAGES := 200

  datatype WsCommand =
    | AddToQueue(track: Track)
    | AddTracksToQueue(tracks: seq<Track>)
    | Next
    | Previous
    | PlayIndex(index: nat)
    | RemoveFromQueue(index: nat)
    | MoveInQueue(from: nat, to: nat)
    | ClearQueue
    | ReplaceAndPlay(tracks: seq<Track>, index: nat)
    | SetRepeat(repeat: RepeatMode)
    | Other(name: string)

  datatype Message =
    | Command(command: WsCommand)
    | Request(requestId: nat, question: string)

  predicate Adds(c: WsCommand) { c.AddToQueue? || c.AddTracksToQueue? }

  function Added(c: WsCommand): seq<Track>
    requires Adds(c)
  {
    if c.AddToQueue? then [c.track] else c.tracks
  }

  // What the messages do once they are sent, in order.

  /** The state after some messages, and what each request among them was answered from. */
  datatype Outcome<S> = Outcome(state: S, answers: seq<(Message, S)>)

  ghost function Handle<S>(effect: (S, WsCommand) -> S, o: Outcome<S>, m: Message): Outcome<S> {
    match m
    case Command(c) => Outcome(effect(o.state, c), o.answers)
    case Request(_, _) => Outcome(o.state, o.answers + [(m, o.state)])
  }

  ghost function Replay<S>(effect: (S, WsCommand) -> S, s: S, ms: seq<Message>): Outcome<S> {
    if ms == [] then Outcome(s, []) else Handle(effect, Replay(effect, s, ms[..|ms| - 1]), ms[|ms| - 1])
  }

  /** Adding some tracks and then others is adding all of them, and one track is a list of one. */
  ghost predicate Additive<S(!new)>(effect: (S, WsCommand) -> S) {
    && (forall s, c, d | Adds(c) && Adds(d) ::
          effect(effect(s, c), d) == effect(s, AddTracksToQueue(Added(c) + Added(d))))
    && (forall s, c | Adds(c) :: effect(s, c) == effect(s, AddTracksToQueue(Added(c))))
  }

  // Merging.

  predicate Merges(q: seq<Message>, m: Message) {
    && q != [] && m.Command? && Adds(m.command)
    && q[|q| - 1].Command? && Adds(q[|q| - 1].command)
  }

  function Merge(q: seq<Message>, m: Message): seq<Message>
    requires Merges(q, m)
  {
    q[..|q| - 1] + [Command(AddTracksToQueue(Added(q[|q| - 1].command) + Added(m.command)))]
  }

  /** The queue if it had no bound. */
  function Coalesced(ms: seq<Message>): seq<Message> {
    if ms == [] then []
    else
      var q := Coalesced(ms[..|ms| - 1]);
      var m := ms[|ms| - 1];
      if Merges(q, m) then Merge(q, m) else q + [m]
  }

  lemma ReplayOne<S>(effect: (S, WsCommand) -> S, s: S, ms: seq<Message>, m: Message)
    ensures Replay(effect, s, ms + [m]) == Handle(effect, Replay(effect, s, ms), m)
  {
    assert (ms + [m])[..|ms|] == ms;
  }

  lemma MergeReplays<S(!new)>(effect: (S, WsCommand) -> S, s: S, q: seq<Message>, m: Message)
    requires Additive(effect) && Merges(q, m)
    ensures Replay(effect, s, Merge(q, m)) == Handle(effect, Replay(effect, s, q), m)
  {
    var front, last := q[..|q| - 1], q[|q| - 1];
    ReplayOne(effect, s, front, last);
    assert front + [last] == q;
    ReplayOne(effect, s, front, Merge(q, m)[|q| - 1]);
  }

  /** Merging cannot be noticed: not by the playback state, and not by any request's answer. */
  lemma {:induction false} CoalescingIsInvisible<S(!new)>(effect: (S, WsCommand) -> S, s: S, ms: seq<Message>)
    requires Additive(effect)
    ensures Replay(effect, s, Coalesced(ms)) == Replay(effect, s, ms)
    decreases |ms|
  {
    hide Additive, Handle;
    if ms != [] {
      var n := |ms| - 1;
      var q := Coalesced(ms[..n]);
      CoalescingIsInvisible(effect, s, ms[..n]);
      if Merges(q, ms[n]) {
        MergeReplays(effect, s, q, ms[n]);
      } else {
        ReplayOne(effect, s, q, ms[n]);
      }
    }
  }

  // The bound.

  predicate AllCommands(q: seq<Message>) { forall m <- q :: m.Command? }

  /** The oldest request, or else the oldest message. */
  function Victim(q: seq<Message>, from: nat): (i: nat)
    requires from <= |q| && 0 < |q|
    ensures i < |q|
    ensures q[i].Request? || i == 0
    ensures i > 0 ==> from <= i
    ensures forall k :: from <= k < |q| && q[k].Request? ==> q[i].Request? && i <= k
    decreases |q| - from
  {
    if from == |q| then 0 else if q[from].Request? then from else Victim(q, from + 1)
  }

  function DropOldest(q: seq<Message>): seq<Message>
    requires q != []
  {
    RemoveAt(q, Victim(q, 0))
  }

  function Enqueued(q: seq<Message>, m: Message): seq<Message> {
    if Merges(q, m) then Merge(q, m)
    else if |q| >= MAX_QUEUED_MESSAGES then DropOldest(q) + [m]
    else q + [m]
  }

  function EnqueueAll(ms: seq<Message>): seq<Message> {
    if ms == [] then [] else Enqueued(EnqueueAll(ms[..|ms| - 1]), ms[|ms| - 1])
  }

  lemma {:induction false} CoalescedGrows(ms: seq<Message>, n: nat)
    requires n <= |ms|
    ensures |Coalesced(ms[..n])| <= |Coalesced(ms)|
    decreases |ms| - n
  {
    if n == |ms| {
      assert ms[..n] == ms;
    } else {
      assert ms[..n + 1][..n] == ms[..n];
      CoalescedGrows(ms, n + 1);
    }
  }

  /** The bound is kept, and it interferes exactly when the merged messages outgrow it. */
  lemma {:induction false} BoundedExactlyWhenItOverflows(ms: seq<Message>)
    ensures |EnqueueAll(ms)| <= MAX_QUEUED_MESSAGES
    ensures EnqueueAll(ms) == Coalesced(ms) <==> |Coalesced(ms)| <= MAX_QUEUED_MESSAGES
    decreases |ms|
  {
    if ms != [] {
      var n := |ms| - 1;
      BoundedExactlyWhenItOverflows(ms[..n]);
      CoalescedGrows(ms, n);
    }
  }

  /** Short of overflow, what the queue sends has the effect of everything that was put in it. */
  lemma QueueReplays<S(!new)>(effect: (S, WsCommand) -> S, s: S, ms: seq<Message>)
    requires Additive(effect) && |Coalesced(ms)| <= MAX_QUEUED_MESSAGES
    ensures Replay(effect, s, EnqueueAll(ms)) == Replay(effect, s, ms)
  {
    hide Additive, Replay;
    BoundedExactlyWhenItOverflows(ms);
    CoalescingIsInvisible(effect, s, ms);
  }

  // Overflow.

  function Commands(q: seq<Message>): (r: seq<Message>)
    ensures |r| <= |q|
    ensures AllCommands(r)
    ensures |r| == |q| ==> AllCommands(q)
  {
    if q == [] then []
    else
      var r := Commands(q[..|q| - 1]);
      if q[|q| - 1].Command? then r + [q[|q| - 1]] else r
  }

  lemma {:induction false} CommandsOfSum(a: seq<Message>, b: seq<Message>)
    ensures Commands(a + b) == Commands(a) + Commands(b)
    decreases |b|
  {
    if b == [] {
      assert a + b == a;
    } else {
      CommandsOfSum(a, b[..|b| - 1]);
      assert (a + b)[..|a + b| - 1] == a + b[..|b| - 1];
    }
  }

  lemma RemovingRequestSpares(q: seq<Message>, i: nat)
    requires i < |q| && q[i].Request?
    ensures Commands(RemoveAt(q, i)) == Commands(q)
  {
    hide Commands;
    CommandsOfSum(q[..i], q[i + 1..]);
    CommandsOfPush(q[..i], q[i]);
    CommandsOfSum(q[..i] + [q[i]], q[i + 1..]);
    assert q == q[..i] + [q[i]] + q[i + 1..];
  }

  /** Dropping the oldest drops no command while a request is waiting. */
  lemma DropSparesCommands(q: seq<Message>)
    requires q != [] && !AllCommands(q)
    ensures Commands(DropOldest(q)) == Commands(q)
  {
    hide Commands;
    var m :| m in q && m.Request?;
    var k :| 0 <= k < |q| && q[k] == m;
    RemovingRequestSpares(q, Victim(q, 0));
  }

  lemma CommandsOfMerge(q: seq<Message>, m: Message)
    requires Merges(q, m)
    ensures Commands(q) != [] && Commands(Merge(q, m)) == Merge(Commands(q), m)
  {
    var n := |q| - 1;
    assert Merge(q, m)[..n] == q[..n];
    assert Commands(q)[..|Commands(q)| - 1] == Commands(q[..n]);
  }

  lemma CommandsOfPush(q: seq<Message>, m: Message)
    ensures Commands(q + [m]) == if m.Command? then Commands(q) + [m] else Commands(q)
  {
    assert (q + [m])[..|q|] == q;
  }

  lemma {:induction false} AllCommandsCount(q: seq<Message>)
    ensures AllCommands(q) ==> Commands(q) == q
    decreases |q|
  {
    if q != [] {
      AllCommandsCount(q[..|q| - 1]);
    }
  }

  /** The bounded queue and the unbounded one end in the same message and hold the same commands. */
  ghost predicate Alike(bounded: seq<Message>, unbounded: seq<Message>) {
    && Commands(bounded) == Commands(unbounded)
    && (bounded == [] <==> unbounded == [])
    && (bounded != [] ==> bounded[|bounded| - 1] == unbounded[|unbounded| - 1])
  }

  function Pushed(q: seq<Message>, m: Message): seq<Message> {
    if Merges(q, m) then Merge(q, m) else q + [m]
  }

  /** There is room for the message, once every waiting request is given up. */
  predicate HasRoom(q: seq<Message>, m: Message) {
    Merges(q, m) || |Commands(q)| < MAX_QUEUED_MESSAGES
  }

  lemma StepKeepsAlike(b: seq<Message>, u: seq<Message>, m: Message)
    requires Alike(b, u) && HasRoom(b, m)
    ensures Alike(Enqueued(b, m), Pushed(u, m))
  {
    hide Commands, Victim, Adds;
    if Merges(b, m) {
      CommandsOfMerge(b, m);
      CommandsOfMerge(u, m);
    } else if |b| >= MAX_QUEUED_MESSAGES {
      AllCommandsCount(b);
      DropSparesCommands(b);
      CommandsOfPush(DropOldest(b), m);
      CommandsOfPush(u, m);
    } else {
      CommandsOfPush(b, m);
      CommandsOfPush(u, m);
    }
  }

  lemma RemovingCostsAtMostOne(q: seq<Message>, i: nat)
    requires i < |q|
    ensures |Commands(RemoveAt(q, i))| == |Commands(q)| - if q[i].Command? then 1 else 0
  {
    hide Commands;
    CommandsOfSum(q[..i], q[i + 1..]);
    CommandsOfPush(q[..i], q[i]);
    CommandsOfSum(q[..i] + [q[i]], q[i + 1..]);
    assert q == q[..i] + [q[i]] + q[i + 1..];
  }

  lemma DroppingCostsNoMore(q: seq<Message>)
    requires q != []
    ensures |Commands(DropOldest(q))| <= |Commands(q)|
    ensures AllCommands(q) ==> |Commands(DropOldest(q))| < |Commands(q)|
  {
    hide Commands, Victim;
    RemovingCostsAtMostOne(q, Victim(q, 0));
  }

  /** A message put in a queue within the bound costs no command if and only if there is room for it. */
  lemma PushSparesExactly(q: seq<Message>, m: Message)
    requires |q| <= MAX_QUEUED_MESSAGES
    ensures Commands(Enqueued(q, m)) == Commands(Pushed(q, m)) <==> HasRoom(q, m)
    ensures !HasRoom(q, m) ==> |Commands(Enqueued(q, m))| < |Commands(Pushed(q, m))|
  {
    hide Commands, Victim, Adds;
    if !Merges(q, m) && |q| >= MAX_QUEUED_MESSAGES {
      AllCommandsCount(q);
      CommandsOfPush(q, m);
      CommandsOfPush(DropOldest(q), m);
      if AllCommands(q) {
        DroppingCostsNoMore(q);
      } else {
        DropSparesCommands(q);
        SomeRequest(q);
      }
    }
  }

  lemma SomeRequest(q: seq<Message>)
    requires !AllCommands(q)
    ensures |Commands(q)| < |q|
  {
    hide Commands;
  }

  /** Whenever a message came there was room for it. */
  predicate Spared(ms: seq<Message>) {
    ms == [] ||
    var n := |ms| - 1;
    Spared(ms[..n]) && HasRoom(Coalesced(ms[..n]), ms[n])
  }

  /** The bounded queue ends like the unbounded one, and has fewer commands. */
  ghost predicate Poorer(bounded: seq<Message>, unbounded: seq<Message>) {
    && |Commands(bounded)| < |Commands(unbounded)|
    && bounded != [] && unbounded != []
    && bounded[|bounded| - 1] == unbounded[|unbounded| - 1]
  }

  lemma StepKeepsPoorer(b: seq<Message>, u: seq<Message>, m: Message)
    requires Poorer(b, u)
    ensures Poorer(Enqueued(b, m), Pushed(u, m))
  {
    hide Commands, Victim, Adds;
    if Merges(b, m) {
      CommandsOfMerge(b, m);
      CommandsOfMerge(u, m);
    } else {
      CommandsOfPush(b, m);
      CommandsOfPush(u, m);
      DroppingCostsNoMore(b);
      CommandsOfPush(DropOldest(b), m);
    }
  }

  lemma StepTurnsPoorer(b: seq<Message>, u: seq<Message>, m: Message)
    requires Alike(b, u) && |b| <= MAX_QUEUED_MESSAGES && !HasRoom(u, m)
    ensures Poorer(Enqueued(b, m), Pushed(u, m))
  {
    hide Commands, Victim, Adds;
    PushSparesExactly(b, m);
    CommandsOfPush(b, m);
    CommandsOfPush(u, m);
  }

  /** The bounded queue holds all the commands while there was room for every message, and fewer from the
      first one on for which there was none. */
  lemma {:induction false} CommandsSurviveExactly(ms: seq<Message>)
    ensures Spared(ms) ==> Alike(EnqueueAll(ms), Coalesced(ms))
    ensures !Spared(ms) ==> Poorer(EnqueueAll(ms), Coalesced(ms))
    decreases |ms|
  {
    hide Commands, Alike, Poorer, Enqueued, HasRoom, Merges, Merge;
    if ms == [] {
      NothingIsAlike();
    } else {
      var n := |ms| - 1;
      var b, u := EnqueueAll(ms[..n]), Coalesced(ms[..n]);
      CommandsSurviveExactly(ms[..n]);
      BoundedExactlyWhenItOverflows(ms[..n]);
      assert Coalesced(ms) == Pushed(u, ms[n]);
      if !Spared(ms[..n]) {
        StepKeepsPoorer(b, u, ms[n]);
      } else if HasRoom(u, ms[n]) {
        AlikeHaveRoom(b, u, ms[n]);
        StepKeepsAlike(b, u, ms[n]);
      } else {
        StepTurnsPoorer(b, u, ms[n]);
      }
    }
  }

  lemma AlikeHaveRoom(b: seq<Message>, u: seq<Message>, m: Message)
    requires Alike(b, u)
    ensures HasRoom(b, m) <==> HasRoom(u, m)
  {
    hide Commands, Adds;
  }

  /** Overflow costs no command if and only if there was always room. */
  lemma OverflowSparesExactly(ms: seq<Message>)
    ensures Commands(EnqueueAll(ms)) == Commands(Coalesced(ms)) <==> Spared(ms)
  {
    hide Commands, Spared;
    CommandsSurviveExactly(ms);
  }

  /** There is, as long as fewer than 200 commands wait. */
  lemma {:induction false} FewCommandsAreSpared(ms: seq<Message>)
    requires |Commands(Coalesced(ms))| < MAX_QUEUED_MESSAGES
    ensures Spared(ms)
    decreases |ms|
  {
    hide Commands, Merges;
    if ms != [] {
      var n := |ms| - 1;
      CommandsGrow(ms[..n], ms[n]);
      assert ms[..n] + [ms[n]] == ms;
      FewCommandsAreSpared(ms[..n]);
    }
  }

  lemma NothingIsAlike()
    ensures Alike([], [])
  {
  }

  lemma AlikeCommands(b: seq<Message>, u: seq<Message>)
    requires Alike(b, u)
    ensures Commands(b) == Commands(u)
  {
  }

  lemma CommandsGrow(ms: seq<Message>, m: Message)
    ensures |Commands(Coalesced(ms))| <= |Commands(Coalesced(ms + [m]))|
  {
    hide Commands;
    assert (ms + [m])[..|ms|] == ms;
    var q := Coalesced(ms);
    if Merges(q, m) {
      CommandsOfMerge(q, m);
    } else {
      CommandsOfPush(q, m);
    }
  }

  lemma {:induction false} StateNeedsOnlyCommands<S>(effect: (S, WsCommand) -> S, s: S, q: seq<Message>)
    ensures Replay(effect, s, Commands(q)).state == Replay(effect, s, q).state
    decreases |q|
  {
    if q != [] {
      var n := |q| - 1;
      StateNeedsOnlyCommands(effect, s, q[..n]);
      if q[n].Command? {
        ReplayOne(effect, s, Commands(q[..n]), q[n]);
      }
    }
  }

  /** While there is room, overflow costs only requests: the playback state comes out as if nothing had
      been dropped. */
  lemma OverflowSparesTheState<S(!new)>(effect: (S, WsCommand) -> S, s: S, ms: seq<Message>)
    requires Additive(effect) && Spared(ms)
    ensures Replay(effect, s, EnqueueAll(ms)).state == Replay(effect, s, ms).state
  {
    hide Additive, Replay, Commands, Alike, Spared;
    CommandsSurviveExactly(ms);
    AlikeCommands(EnqueueAll(ms), Coalesced(ms));
    StateNeedsOnlyCommands(effect, s, EnqueueAll(ms));
    StateNeedsOnlyCommands(effect, s, Coalesced(ms));
    CoalescingIsInvisible(effect, s, ms);
  }

  // The server's playback queue and its node are such a state.

  /** One node's queue on the server, and the player at the other end of an idle wire. */
  datatype Playback = Playback(
    queue: seq<Track>, currentIndex: Option<nat>, transport: Option<Transport>, repeat: RepeatMode, player: PlayerState)

  ghost function ViewOf(s: Playback, connected: bool): NodeView {
    NodeView(s.queue, s.currentIndex, s.transport, if connected then Some([]) else None)
  }

  /** The node reads what was sent. */
  ghost function Delivered(s: Playback, v: NodeView): Playback {
    Playback(v.queue, v.currentIndex, v.transport, s.repeat,
      if v.wire.Some? then ReceiveAll(s.player, v.wire.value) else s.player)
  }

  ghost function ServerView(s: Playback, c: WsCommand, connected: bool, accepted: bool): NodeView {
    var v := ViewOf(s, connected);
    match c
    case AddToQueue(track) => Append(v, [track], connected, accepted)
    case AddTracksToQueue(tracks) => Append(v, tracks, connected, accepted)
    case Next =>
      var next := NextIndex(s.currentIndex, |s.queue|, s.repeat);
      if connected && next.Some? then JumpTo(v, next.value, accepted) else v
    case Previous =>
      var previous := PreviousIndex(s.currentIndex, |s.queue|, s.repeat);
      if connected && previous.Some? then JumpTo(v, previous.value, accepted) else v
    case PlayIndex(i) => if connected && i < |s.queue| then JumpTo(v, i, accepted) else v
    case RemoveFromQueue(i) => if i < |s.queue| then RemoveEntry(v, i, connected, accepted) else v
    case MoveInQueue(from, to) =>
      if from < |s.queue| && to < |s.queue| then MoveEntry(v, from, to, connected, accepted) else v
    case ClearQueue => ClearAll(v, connected, accepted)
    case ReplaceAndPlay(tracks, i) => Replace(v, tracks, Some(i), connected, accepted)
    case SetRepeat(_) => v
    case Other(_) => v
  }

  /** What a command does while the output accepts everything, or nothing. */
  ghost function ServerEffect(connected: bool, accepted: bool): (Playback, WsCommand) -> Playback {
    (s: Playback, c: WsCommand) =>
      var after := Delivered(s, ServerView(s, c, connected, accepted));
      if c.SetRepeat? then after.(repeat := c.repeat) else after
  }

  lemma AppendOnServer(s: Playback, tracks: seq<Track>, connected: bool, accepted: bool)
    ensures ServerEffect(connected, accepted)(s, AddTracksToQueue(tracks)) == s.(
      queue := s.queue + tracks,
      transport := if connected && accepted && s.transport.Some?
        then Some(s.transport.value.(loadedLen := s.transport.value.loadedLen + |tracks|)) else s.transport,
      player := if connected && accepted then s.player.(playlist := s.player.playlist + Paths(tracks)) else s.player)
  {
    if tracks != [] && connected && accepted {
      ReceiveAllAppend(s.player, [], Add(Paths(tracks)));
      assert [] + [Add(Paths(tracks))] == [Add(Paths(tracks))];
    }
  }

  lemma PathsOfSum(a: seq<Track>, b: seq<Track>)
    ensures Paths(a + b) == Paths(a) + Paths(b)
  {
  }

  /** Two additions reach the server's queue, its record of the projection and the player as one would. */
  lemma ServerIsAdditive(connected: bool, accepted: bool)
    ensures Additive(ServerEffect(connected, accepted))
  {
    var effect := ServerEffect(connected, accepted);
    forall s: Playback, c | Adds(c)
      ensures effect(s, c) == effect(s, AddTracksToQueue(Added(c)))
    {
    }
    forall s: Playback, c, d | Adds(c) && Adds(d)
      ensures effect(effect(s, c), d) == effect(s, AddTracksToQueue(Added(c) + Added(d)))
    {
      TwoAppends(s, Added(c), Added(d), connected, accepted);
      assert effect(s, c) == effect(s, AddTracksToQueue(Added(c)));
      assert effect(effect(s, c), d) == effect(effect(s, c), AddTracksToQueue(Added(d)));
    }
  }

  lemma TwoAppends(s: Playback, a: seq<Track>, b: seq<Track>, connected: bool, accepted: bool)
    ensures var effect := ServerEffect(connected, accepted);
      effect(effect(s, AddTracksToQueue(a)), AddTracksToQueue(b)) == effect(s, AddTracksToQueue(a + b))
  {
    hide ServerEffect;
    AppendOnServer(s, a, connected, accepted);
    AppendOnServer(ServerEffect(connected, accepted)(s, AddTracksToQueue(a)), b, connected, accepted);
    AppendOnServer(s, a + b, connected, accepted);
    PathsOfSum(a, b);
    assert s.queue + a + b == s.queue + (a + b);
    assert s.player.playlist + Paths(a) + Paths(b) == s.player.playlist + Paths(a + b);
  }

  /** Where an output takes one addition and refuses another, merging them makes a difference: it makes
      none exactly if all are taken, or all refused. */
  lemma MergedOutcomeDiffers(s: Playback, a: seq<Track>, b: seq<Track>, first: bool, second: bool, merged: bool)
    requires a != [] && b != []
    ensures ServerEffect(true, second)(ServerEffect(true, first)(s, AddTracksToQueue(a)), AddTracksToQueue(b))
        == ServerEffect(true, merged)(s, AddTracksToQueue(a + b))
      <==> first == second == merged
  {
    hide ServerEffect;
    AppendOnServer(s, a, true, first);
    var between := ServerEffect(true, first)(s, AddTracksToQueue(a));
    AppendOnServer(between, b, true, second);
    AppendOnServer(s, a + b, true, merged);
    if first == second == merged {
      TwoAppends(s, a, b, true, merged);
    } else {
      var apart := ServerEffect(true, second)(between, AddTracksToQueue(b));
      var together := ServerEffect(true, merged)(s, AddTracksToQueue(a + b));
      assert |apart.player.playlist| == |s.player.playlist| + (if first then |a| else 0) + if second then |b| else 0;
      assert |together.player.playlist| == |s.player.playlist| + if merged then |a| + |b| else 0;
    }
  }

  /** What the queue does for a playback queue. */
  lemma OfflineCommandsReplay(s: Playback, ms: seq<Message>, connected: bool, accepted: bool)
    requires |Coalesced(ms)| <= MAX_QUEUED_MESSAGES
    ensures Replay(ServerEffect(connected, accepted), s, EnqueueAll(ms)) == Replay(ServerEffect(connected, accepted), s, ms)
  {
    hide Additive, Replay, ServerEffect;
    ServerIsAdditive(connected, accepted);
    QueueReplays(ServerEffect(connected, accepted), s, ms);
  }

  // The connection.

  /** The link, what waits for it, and what has been handed to it. */
  datatype Link = Link(up: bool, queue: seq<Message>, sent: seq<Message>)

  const DOWN := Link(false, [], [])

  /** `Close` is the socket's own close, which every failed attempt to connect ends in, or a missed
      heartbeat; `Disconnect` is the user's, and `Offline` the browser's. */
  datatype Event = Send(message: Message) | Open | Close | Disconnect | Offline

  function LinkStep(l: Link, e: Event): Link {
    match e
    case Send(m) => if l.up then l.(sent := l.sent + [m]) else l.(queue := Enqueued(l.queue, m))
    case Open => Link(true, [], l.sent + l.queue)
    case Close => l.(up := false, queue := [])
    case Disconnect => l.(up := false)
    case Offline => l.(up := false)
  }

  function After(events: seq<Event>): Link {
    if events == [] then DOWN else LinkStep(After(events[..|events| - 1]), events[|events| - 1])
  }

  /** The messages since the link was last up or last closed. */
  function Waiting(events: seq<Event>): seq<Message> {
    if events == [] then []
    else
      var before := events[..|events| - 1];
      match events[|events| - 1]
      case Send(m) => if After(before).up then [] else Waiting(before) + [m]
      case Open => []
      case Close => []
      case _ => Waiting(before)
  }

  /** The messages since the link was last up. */
  function SentOffline(events: seq<Event>): seq<Message> {
    if events == [] then []
    else
      var before := events[..|events| - 1];
      match events[|events| - 1]
      case Send(m) => if After(before).up then [] else SentOffline(before) + [m]
      case Open => []
      case _ => SentOffline(before)
  }

  /** A close came after a message that was sent while the link was down. */
  predicate LostToClose(events: seq<Event>) {
    if events == [] then false
    else
      var before := events[..|events| - 1];
      match events[|events| - 1]
      case Send(m) => !After(before).up && LostToClose(before)
      case Open => false
      case Close => SentOffline(before) != []
      case _ => LostToClose(before)
  }

  lemma {:induction false} UpMeansNothingWaits(events: seq<Event>)
    ensures After(events).up ==> After(events).queue == [] && Waiting(events) == [] && SentOffline(events) == []
    ensures After(events).up ==> !LostToClose(events)
    decreases |events|
  {
    if events != [] {
      UpMeansNothingWaits(events[..|events| - 1]);
    }
  }

  /** What waits is what was put in the queue since the last close. */
  lemma {:induction false} QueueHoldsWaiting(events: seq<Event>)
    ensures After(events).queue == EnqueueAll(Waiting(events))
    decreases |events|
  {
    hide Enqueued;
    if events != [] {
      var before, last := events[..|events| - 1], events[|events| - 1];
      QueueHoldsWaiting(before);
      UpMeansNothingWaits(before);
      if last.Send? && !After(before).up {
        assert (Waiting(before) + [last.message])[..|Waiting(before)|] == Waiting(before);
      }
    }
  }

  /** What waits is everything that was sent offline if and only if no close came after some of it. */
  lemma {:induction false} WaitingIsAllExactly(events: seq<Event>)
    ensures Waiting(events) == SentOffline(events) <==> !LostToClose(events)
    ensures |Waiting(events)| <= |SentOffline(events)|
    ensures LostToClose(events) ==> |Waiting(events)| < |SentOffline(events)|
    decreases |events|
  {
    if events != [] {
      UpMeansNothingWaits(events[..|events| - 1]);
      WaitingIsAllExactly(events[..|events| - 1]);
    }
  }

  /** When the link opens, the server sees exactly the messages since the last close: that is all of them
      if and only if no close came after some of them. */
  lemma OpeningReplays<S(!new)>(effect: (S, WsCommand) -> S, s: S, events: seq<Event>)
    requires Additive(effect) && |Coalesced(Waiting(events))| <= MAX_QUEUED_MESSAGES
    ensures After(events + [Open]).sent == After(events).sent + EnqueueAll(Waiting(events))
    ensures Replay(effect, s, EnqueueAll(Waiting(events))) == Replay(effect, s, Waiting(events))
    ensures Waiting(events) == SentOffline(events) <==> !LostToClose(events)
  {
    hide Additive, Replay;
    assert (events + [Open])[..|events|] == events;
    QueueHoldsWaiting(events);
    QueueReplays(effect, s, Waiting(events));
    WaitingIsAllExactly(events);
  }

  /** One failed attempt to connect loses everything that waits. */
  lemma FailedAttemptLosesAll(events: seq<Event>)
    requires !After(events).up && SentOffline(events) != []
    ensures LostToClose(events + [Close]) && Waiting(events + [Close]) == []
    ensures After(events + [Close, Open]).sent == After(events).sent
  {
    assert (events + [Close])[..|events|] == events;
    assert (events + [Close, Open])[..|events| + 1] == events + [Close];
  }

  function AllSent(events: seq<Event>): seq<Message> {
    if events == [] then []
    else
      var last := events[|events| - 1];
      AllSent(events[..|events| - 1]) + if last.Send? then [last.message] else []
  }

  lemma {:induction false} ReplayConcat<S>(effect: (S, WsCommand) -> S, s: S, a: seq<Message>, b: seq<Message>)
    ensures var first := Replay(effect, s, a); var second := Replay(effect, first.state, b);
      Replay(effect, s, a + b) == Outcome(second.state, first.answers + second.answers)
    decreases |b|
  {
    if b == [] {
      assert a + b == a;
    } else {
      var n := |b| - 1;
      assert (a + b)[..|a + b| - 1] == a + b[..n];
      ReplayConcat(effect, s, a, b[..n]);
    }
  }

  /** At every close nothing waits, and at every opening no more than fits. */
  ghost predicate Lossless(events: seq<Event>) {
    forall k :: 0 <= k < |events| ==>
      && (events[k].Close? ==> Waiting(events[..k]) == [])
      && (events[k].Open? ==> |Coalesced(Waiting(events[..k]))| <= MAX_QUEUED_MESSAGES)
  }

  lemma LosslessBefore(events: seq<Event>)
    requires Lossless(events) && events != []
    ensures Lossless(events[..|events| - 1])
  {
    var before := events[..|events| - 1];
    forall k | 0 <= k < |before|
      ensures before[..k] == events[..k] && before[k] == events[k]
    {
    }
  }

  /** Over a whole run the server has seen, or will see from what waits, the effect of everything sent. */
  lemma {:induction false} LosslessRunsReplay<S(!new)>(effect: (S, WsCommand) -> S, s: S, events: seq<Event>)
    requires Additive(effect) && Lossless(events)
    ensures Replay(effect, s, After(events).sent + Waiting(events)) == Replay(effect, s, AllSent(events))
    decreases |events|
  {
    hide Additive, Replay, Coalesced, Enqueued, Lossless;
    if events != [] {
      var n := |events| - 1;
      var before, last := events[..n], events[n];
      LosslessBefore(events);
      LosslessRunsReplay(effect, s, before);
      LosslessAt(events, n);
      var l := After(before);
      UpMeansNothingWaits(before);
      match last {
        case Send(m) =>
          ReplayOne(effect, s, l.sent + Waiting(before), m);
          ReplayOne(effect, s, AllSent(before), m);
          assert l.sent + (Waiting(before) + [m]) == l.sent + Waiting(before) + [m];
          assert l.up ==> l.sent + [m] + [] == l.sent + [] + [m];
        case Open =>
          QueueHoldsWaiting(before);
          QueueReplays(effect, Replay(effect, s, l.sent).state, Waiting(before));
          ReplayConcat(effect, s, l.sent, Waiting(before));
          ReplayConcat(effect, s, l.sent, l.queue);
          assert l.sent + l.queue + [] == l.sent + l.queue;
        case Close =>
        case Disconnect =>
        case Offline =>
      }
      assert AllSent(before) + [] == AllSent(before);
    } else {
      assert DOWN.sent + Waiting(events) == AllSent(events);
    }
  }

  lemma LosslessAt(events: seq<Event>, k: nat)
    requires Lossless(events) && k < |events|
    ensures events[k].Close? ==> Waiting(events[..k]) == []
    ensures events[k].Open? ==> |Coalesced(Waiting(events[..k]))| <= MAX_QUEUED_MESSAGES
  {
  }

  // The client.

  predicate IsRequest(m: Message, id: nat) { m.Request? && m.requestId == id }

  /** The request given up to make room for `m`. */
  function GivenUp(q: seq<Message>, m: Message): Option<nat> {
    if !Merges(q, m) && |q| >= MAX_QUEUED_MESSAGES && q[Victim(q, 0)].Request?
    then Some(q[Victim(q, 0)].requestId) else None
  }

  ghost predicate OnItsWay(waiting: seq<Message>, sent: seq<Message>, id: nat) {
    exists m :: (m in waiting || m in sent) && IsRequest(m, id)
  }

  lemma EnqueueKeepsOthers(q: seq<Message>, m: Message, k: nat)
    requires k < |q| && q[k].Request? && GivenUp(q, m) != Some(q[k].requestId)
    ensures q[k] in Enqueued(q, m)
  {
    hide Victim, Adds;
    var after := Enqueued(q, m);
    if Merges(q, m) {
      assert after[k] == q[k];
    } else if |q| >= MAX_QUEUED_MESSAGES {
      var place := if k < Victim(q, 0) then k else k - 1;
      assert DropOldest(q)[place] == q[k];
      assert after[place] == q[k];
    } else {
      assert after[k] == q[k];
    }
  }

  lemma EnqueueLosesNone(q: seq<Message>, sent: seq<Message>, m: Message, id: nat)
    requires OnItsWay(q, sent, id) && GivenUp(q, m) != Some(id)
    ensures OnItsWay(Enqueued(q, m), sent, id)
  {
    hide Enqueued, GivenUp;
    var r :| (r in q || r in sent) && IsRequest(r, id);
    if r in q {
      var k :| 0 <= k < |q| && q[k] == r;
      EnqueueKeepsOthers(q, m, k);
    }
  }

  lemma SendingLosesNone(q: seq<Message>, sent: seq<Message>, id: nat)
    requires q != [] && OnItsWay(q, sent, id)
    ensures OnItsWay(q[1..], sent + [q[0]], id)
  {
    var r :| (r in q || r in sent) && IsRequest(r, id);
    assert r in q[1..] || r in sent + [q[0]];
  }

  lemma StillSent(q: seq<Message>, sent: seq<Message>, m: Message, id: nat)
    requires OnItsWay(q, sent, id)
    ensures OnItsWay(q, sent + [m], id)
  {
    var r :| (r in q || r in sent) && IsRequest(r, id);
    assert r in q || r in sent + [m];
  }

  lemma JustSent(q: seq<Message>, sent: seq<Message>, m: Message)
    requires m.Request?
    ensures OnItsWay(q, sent + [m], m.requestId)
  {
    assert m in sent + [m];
  }

  lemma JustQueued(q: seq<Message>, sent: seq<Message>, m: Message)
    requires m.Request? && m in q
    ensures OnItsWay(q, sent, m.requestId)
  {
  }

  lemma NewestIsNotGivenUp(q: seq<Message>, m: Message)
    requires m.Request? && forall r <- q :: r.Request? ==> r.requestId < m.requestId
    ensures GivenUp(q, m) != Some(m.requestId)
  {
  }

  lemma NewestIsEnqueued(q: seq<Message>, m: Message)
    requires m.Request?
    ensures m in Enqueued(q, m)
    ensures forall r <- Enqueued(q, m) :: r.Request? ==> r == m || r in q
  {
  }

  lemma CommandIsEnqueued(q: seq<Message>, m: Message)
    requires m.Command?
    ensures forall r <- Enqueued(q, m) :: r.Request? ==> r in q
  {
  }

  function Kept(pending: set<nat>, gone: Option<nat>): set<nat> {
    if gone.Some? then pending - {gone.value} else pending
  }

  class WsClient {
    var sendQueue: seq<Message>
    var sent: seq<Message>
    var connected: bool
    var reqId: nat
    var pendingRequests: set<nat>
    /** Requests whose promise has been resolved or rejected. */
    var settled: set<nat>

    /** Every request made is pending or settled, and the message of a pending one is waiting or sent. */
    ghost predicate Valid()
      reads this
    {
      && |sendQueue| <= MAX_QUEUED_MESSAGES
      && (connected ==> sendQueue == [])
      && (forall id: nat :: id in pendingRequests || id in settled <==> 1 <= id <= reqId)
      && pendingRequests !! settled
      && (forall id <- pendingRequests :: OnItsWay(sendQueue, sent, id))
      && (forall m <- sendQueue :: m.Request? ==> m.requestId <= reqId)
    }

    ghost function AsLink(): Link
      reads this
    {
      Link(connected, sendQueue, sent)
    }

    constructor ()
      ensures AsLink() == DOWN
      ensures Valid() && sendQueue == [] && sent == [] && !connected && reqId == 0
    {
      sendQueue, sent, connected, reqId, pendingRequests, settled := [], [], false, 0, {}, {};
    }

    method SendCommand(c: WsCommand)
      requires Valid()
      modifies this
      ensures Valid() && AsLink() == LinkStep(old(AsLink()), Send(Command(c))) && reqId == old(reqId)
      ensures connected ==> pendingRequests == old(pendingRequests)
      ensures !connected ==> pendingRequests == Kept(old(pendingRequests), GivenUp(old(sendQueue), Command(c)))
    {
      hide Enqueued, GivenUp, OnItsWay;
      if connected {
        sent := sent + [Command(c)];
        forall id <- pendingRequests
          ensures OnItsWay(sendQueue, sent, id)
        {
          assert OnItsWay(sendQueue, old(sent), id);
          StillSent(sendQueue, old(sent), Command(c), id);
        }
      } else {
        CommandIsEnqueued(sendQueue, Command(c));
        QueueMessage(Command(c));
      }
    }

    method SendRequest(question: string) returns (id: nat)
      requires Valid()
      modifies this
      ensures Valid() && AsLink() == LinkStep(old(AsLink()), Send(Request(id, question)))
      ensures id == reqId == old(reqId) + 1 && id in pendingRequests
      ensures connected ==> pendingRequests == old(pendingRequests) + {id}
      ensures !connected ==>
        pendingRequests == Kept(old(pendingRequests), GivenUp(old(sendQueue), Request(id, question))) + {id}
    {
      hide Enqueued, GivenUp, OnItsWay;
      reqId := reqId + 1;
      id := reqId;
      var m := Request(id, question);
      pendingRequests := pendingRequests + {id};
      if connected {
        sent := sent + [m];
        forall k <- pendingRequests
          ensures OnItsWay(sendQueue, sent, k)
        {
          if k == id {
            JustSent(sendQueue, old(sent), m);
          } else {
            assert OnItsWay(sendQueue, old(sent), k);
            StillSent(sendQueue, old(sent), m, k);
          }
        }
      } else {
        NewestIsEnqueued(sendQueue, m);
        NewestIsNotGivenUp(sendQueue, m);
        JustQueued(Enqueued(sendQueue, m), sent, m);
        QueueMessage(m);
      }
    }

    /** Merge it, or make room for it and push it. */
    method QueueMessage(m: Message)
      requires |sendQueue| <= MAX_QUEUED_MESSAGES
      requires forall id: nat <- pendingRequests :: OnItsWay(sendQueue, sent, id) || IsRequest(m, id)
      modifies this
      ensures sendQueue == Enqueued(old(sendQueue), m) && |sendQueue| <= MAX_QUEUED_MESSAGES
      ensures pendingRequests == Kept(old(pendingRequests), GivenUp(old(sendQueue), m))
      ensures settled == old(settled) + (old(pendingRequests) - pendingRequests)
      ensures forall id: nat <- pendingRequests :: IsRequest(m, id) || OnItsWay(sendQueue, sent, id)
      ensures sent == old(sent) && connected == old(connected) && reqId == old(reqId)
    {
      hide OnItsWay;
      ghost var before := sendQueue;
      var merged := false;
      if m.Command? {
        merged := MergeQueuedAddCommand(m.command);
      }
      if !merged {
        if |sendQueue| >= MAX_QUEUED_MESSAGES {
          DropOldestQueuedMessage();
        }
        sendQueue := sendQueue + [m];
      }
      forall id: nat <- pendingRequests | !IsRequest(m, id)
        ensures OnItsWay(sendQueue, sent, id)
      {
        EnqueueLosesNone(before, sent, m, id);
      }
    }

    method MergeQueuedAddCommand(c: WsCommand) returns (merged: bool)
      modifies this`sendQueue
      ensures merged <==> Merges(old(sendQueue), Command(c))
      ensures sendQueue == if merged then Merge(old(sendQueue), Command(c)) else old(sendQueue)
    {
      if !c.AddToQueue? && !c.AddTracksToQueue? {
        return false;
      }
      if |sendQueue| == 0 || !sendQueue[|sendQueue| - 1].Command? {
        return false;
      }
      var previous := sendQueue[|sendQueue| - 1].command;
      if !previous.AddToQueue? && !previous.AddTracksToQueue? {
        return false;
      }
      var previousTracks := if previous.AddToQueue? then [previous.track] else previous.tracks;
      var nextTracks := if c.AddToQueue? then [c.track] else c.tracks;
      sendQueue := sendQueue[|sendQueue| - 1 := Command(AddTracksToQueue(previousTracks + nextTracks))];
      return true;
    }

    method DropOldestQueuedMessage()
      requires sendQueue != []
      modifies this`sendQueue, this`pendingRequests, this`settled
      ensures sendQueue == DropOldest(old(sendQueue))
      ensures var dropped := old(sendQueue)[Victim(old(sendQueue), 0)];
        if dropped.Request? && dropped.requestId in old(pendingRequests) then
          && pendingRequests == old(pendingRequests) - {dropped.requestId}
          && settled == old(settled) + {dropped.requestId}
        else pendingRequests == old(pendingRequests) && settled == old(settled)
    {
      var dropIndex := Victim(sendQueue, 0);
      var dropped := sendQueue[dropIndex];
      sendQueue := RemoveAt(sendQueue, dropIndex);
      if dropped.Request? {
        RejectPendingRequest(dropped.requestId);
      }
    }

    method RejectPendingRequest(id: nat)
      modifies this`pendingRequests, this`settled
      ensures if id in old(pendingRequests)
        then pendingRequests == old(pendingRequests) - {id} && settled == old(settled) + {id}
        else pendingRequests == old(pendingRequests) && settled == old(settled)
    {
      if id !in pendingRequests {
        return;
      }
      settled := settled + {id};
      pendingRequests := pendingRequests - {id};
    }

    /** A response, or the request's own timeout. */
    method Settle(id: nat)
      requires Valid()
      modifies this
      ensures Valid() && id !in pendingRequests
      ensures pendingRequests == old(pendingRequests) - {id} && sendQueue == old(sendQueue) && sent == old(sent)
    {
      hide OnItsWay;
      RejectPendingRequest(id);
    }

    /** The connection opens: everything waiting is sent, in order. */
    method Flush()
      requires Valid() && !connected
      modifies this
      ensures Valid() && AsLink() == LinkStep(old(AsLink()), Open)
      ensures pendingRequests == old(pendingRequests)
    {
      hide OnItsWay;
      connected := true;
      ghost var waiting := sendQueue;
      while |sendQueue| > 0
        invariant sent + sendQueue == old(sent) + waiting
        invariant connected && reqId == old(reqId) && |sendQueue| <= |waiting|
        invariant pendingRequests == old(pendingRequests) && settled == old(settled)
        invariant forall id <- pendingRequests :: OnItsWay(sendQueue, sent, id)
        decreases |sendQueue|
      {
        forall id <- pendingRequests
          ensures OnItsWay(sendQueue[1..], sent + [sendQueue[0]], id)
        {
          SendingLosesNone(sendQueue, sent, id);
        }
        assert sent + sendQueue == sent + [sendQueue[0]] + sendQueue[1..];
        sent, sendQueue := sent + [sendQueue[0]], sendQueue[1..];
      }
      assert sent == sent + sendQueue;
    }

    /** The socket closes, or a heartbeat is missed: nothing waits any more, and no request is pending. */
    method Closed()
      requires Valid()
      modifies this
      ensures Valid() && AsLink() == LinkStep(old(AsLink()), Close)
      ensures pendingRequests == {} && settled == old(settled) + old(pendingRequests)
    {
      connected := false;
      sendQueue := [];
      RejectAllPending();
    }

    /** The user disconnects: requests are given up, but what waits stays. */
    method Disconnected()
      requires Valid()
      modifies this
      ensures Valid() && AsLink() == LinkStep(old(AsLink()), Disconnect)
      ensures pendingRequests == {} && settled == old(settled) + old(pendingRequests)
    {
      connected := false;
      RejectAllPending();
    }

    /** The browser goes offline: the socket is dropped without its close being handled. */
    method WentOffline()
      requires Valid()
      modifies this
      ensures Valid() && AsLink() == LinkStep(old(AsLink()), Offline)
      ensures pendingRequests == old(pendingRequests)
    {
      hide OnItsWay;
      connected := false;
    }

    method RejectAllPending()
      modifies this`pendingRequests, this`settled
      ensures pendingRequests == {} && settled == old(settled) + old(pendingRequests)
    {
      while pendingRequests != {}
        invariant settled + pendingRequests == old(settled) + old(pendingRequests)
        decreases |pendingRequests|
      {
        var id :| id in pendingRequests;
        settled := settled + {id};
        pendingRequests := pendingRequests - {id};
      }
    }
  }

  // What happens to one message.

  /** An addition right behind another one joins it, whichever of the two commands each is. */
  lemma AdditionsJoin(q: seq<Message>, t: Track, u: Track, ts: seq<Track>, us: seq<Track>)
    ensures Enqueued(q + [Command(WsCommand.AddToQueue(t))], Command(WsCommand.AddToQueue(u)))
      == q + [Command(AddTracksToQueue([t, u]))]
    ensures Enqueued(q + [Command(WsCommand.AddToQueue(t))], Command(AddTracksToQueue(us)))
      == q + [Command(AddTracksToQueue([t] + us))]
    ensures Enqueued(q + [Command(AddTracksToQueue(ts))], Command(WsCommand.AddToQueue(u)))
      == q + [Command(AddTracksToQueue(ts + [u]))]
    ensures Enqueued(q + [Command(AddTracksToQueue(ts))], Command(AddTracksToQueue(us)))
      == q + [Command(AddTracksToQueue(ts + us))]
  {
    assert [t] + [u] == [t, u];
  }

  predicate IsAddition(m: Message) { m.Command? && (m.command.AddToQueue? || m.command.AddTracksToQueue?) }

  /** Anything else goes to the end; where 200 wait already the oldest request goes first, or else the oldest message. */
  lemma OthersAreAppended(q: seq<Message>, m: Message, i: nat)
    requires !IsAddition(m) || q == [] || !IsAddition(q[|q| - 1])
    ensures |q| < 200 ==> Enqueued(q, m) == q + [m]
    ensures |q| >= 200 && i < |q| && q[i].Request? && (forall j :: 0 <= j < i ==> !q[j].Request?)
      ==> Enqueued(q, m) == q[..i] + q[i + 1..] + [m] && GivenUp(q, m) == Some(q[i].requestId)
    ensures |q| >= 200 && (forall x <- q :: !x.Request?) ==> Enqueued(q, m) == q[1..] + [m] && GivenUp(q, m) == None
  {
    if |q| >= 200 {
      var v := Victim(q, 0);
      assert q[v] in q;
    }
  }

  /** A request given up is no longer pending, and no other is touched. */
  lemma OnlyTheGivenUpGoes(pending: set<nat>, id: nat, other: nat)
    ensures Kept(pending, None) == pending
    ensures id !in Kept(pending, Some(id))
    ensures other != id ==> (other in Kept(pending, Some(id)) <==> other in pending)
  {
  }

  /** While the link is up messages go straight out. Opening it sends what waits, in order; a close drops what waits; a
      disconnect and a loss of the network only take it down. */
  lemma LinkMeans(l: Link, m: Message)
    ensures l.up ==> LinkStep(l, Send(m)) == Link(true, l.queue, l.sent + [m])
    ensures !l.up ==> LinkStep(l, Send(m)).sent == l.sent && !LinkStep(l, Send(m)).up
    ensures !l.up && !IsAddition(m) && |l.queue| < 200 ==> LinkStep(l, Send(m)).queue == l.queue + [m]
    ensures LinkStep(l, Open) == Link(true, [], l.sent + l.queue)
    ensures LinkStep(l, Close) == Link(false, [], l.sent)
    ensures LinkStep(l, Disconnect) == Link(false, l.queue, l.sent)
    ensures LinkStep(l, Offline) == Link(false, l.queue, l.sent)
  {
    if !l.up && !IsAddition(m) {
      OthersAreAppended(l.queue, m, 0);
    }
  }

  /** What the commands do to the queue and the current entry while an output that takes everything is connected. */
  lemma CommandsOnServer(s: Playback, c: WsCommand)
    ensures var after := ServerEffect(true, true)(s, c); var n := |s.queue|;
      match c
      case AddToQueue(t) => after.queue == s.queue + [t] && after.currentIndex == s.currentIndex
      case AddTracksToQueue(ts) => after.queue == s.queue + ts && after.currentIndex == s.currentIndex
      case Next =>
        && after.queue == s.queue
        && (s.currentIndex.Some? && s.currentIndex.value + 1 < n && !s.repeat.One? ==>
              after.currentIndex == Some(s.currentIndex.value + 1))
      case Previous =>
        && after.queue == s.queue
        && (s.currentIndex.Some? && 0 < s.currentIndex.value < n ==> after.currentIndex == Some(s.currentIndex.value - 1))
      case PlayIndex(i) => after.queue == s.queue && after.currentIndex == if i < n then Some(i) else s.currentIndex
      case RemoveFromQueue(i) =>
        && (i < n ==> after.queue[..i] == s.queue[..i] && after.queue[i..] == s.queue[i + 1..])
        && (i >= n ==> after.queue == s.queue)
      case MoveInQueue(from, to) =>
        && |after.queue| == n
        && (from < n && to < n ==> after.queue[to] == s.queue[from])
        && (from >= n || to >= n ==> after.queue == s.queue)
      case ClearQueue => after.queue == [] && after.currentIndex == None
      case ReplaceAndPlay(tracks, i) => after.queue == tracks && after.currentIndex == Some(i)
      case SetRepeat(mode) => after.queue == s.queue && after.currentIndex == s.currentIndex && after.repeat == mode
      case Other(_) => after == s
  {
    if c.Next? && s.currentIndex.Some? {
      if s.currentIndex.value < |s.queue| {
        WrapAround(s.currentIndex.value, |s.queue|);
      }
    }
  }
}
