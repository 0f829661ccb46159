/**
 Snapshots and agent turns together: the machine of module Snapshots and that of module AgentRaces,
 joined by the chats.  A chat is pinned to a snapshot, the pin goes with the snapshot's row
 (ON DELETE SET NULL in apps/api/src/db/migrate.ts), and the pruning side sees the turns through
 their chats.
 */
module TurnInterlocks {
  import S = Snapshots
  import SnapProofs = SnapshotProofs
  import T = AgentTurns
  import R = AgentRaces

  type Pins = map<T.ChatId, S.SnapId>

  datatype Config = Config(snap: S.Config, queue: T.Config)

  type CallId = nat

  // A resumeTurn call in one of its awaits: before and after its check of the snapshot it read.
  datatype Resumption = Asked(id: T.TurnId, snapshot: S.SnapId) | Checked(id: T.TurnId, snapshot: S.SnapId)

  datatype World = World(snap: S.State, race: R.Race, chats: Pins, resumptions: map<CallId, Resumption>)

  const EMPTY := World(S.EMPTY, R.CALM, map[], map[])

  datatype Step =
    | WSnap(event: S.Event)                            // every step but the turns of that machine
    | WRace(step: R.Step)                              // every step but resumption and restart
    | WChat(chat: T.ChatId, snapshot: S.SnapId)        // the INSERT of createChat
    | WAsk(call: CallId, id: T.TurnId)                 // resumeTurn up to its first await
    | WCheck(call: CallId)                             // ... assertAgentTurnCanStart
    | WResume(call: CallId, sequence: nat)             // ... the capacity check and the requeueing
    | WGiveUp(call: CallId)                            // ... or an error in between

  // What the query of assertNoActiveAgentTurns finds.
  function Seen(turns: map<T.TurnId, T.Turn>, chats: Pins): map<S.TurnId, S.Turn> {
    map id | id in turns && turns[id].chat in chats :: S.Turn(chats[turns[id].chat], T.Active(turns[id].status))
  }

  function Kept(chats: Pins, rows: S.Rows): Pins { map chat | chat in chats && chats[chat] in rows :: chats[chat] }

  function ChatsAfter(chats: Pins, step: R.Step): Pins {
    if step.SDeleteChat? then chats - {step.chat} else chats
  }

  // sendMessage checks the chat's snapshot and inserts the turn without an await in between;
  // resumeTurn reads the chat's snapshot, checks it and requeues the turn in three sections.
  ghost predicate Enabled(c: Config, w: World, e: Step) {
    match e
    case WSnap(event) => !event.EStartTurn? && !event.EEndTurn? && S.Enabled(c.snap, w.snap, event)
    case WRace(step) =>
      && w.snap.live && !step.SRestart? && !step.SResume? && R.Enabled(c.queue, w.race, step)
      && (step.SSend? ==> step.chat in w.chats && S.TurnCanStart(c.snap, w.snap, w.chats[step.chat]))
    // chat ids are random and never reused
    case WChat(chat, id) =>
      && w.snap.live && id in w.snap.rows && chat !in w.chats
      && forall t :: t in w.race.tables.turns ==> w.race.tables.turns[t].chat != chat
    case WAsk(call, id) =>
      && w.snap.live && call !in w.resumptions && id in w.race.tables.turns
      && T.Terminated(w.race.tables.turns[id].status) && w.race.tables.turns[id].chat in w.chats
    case WCheck(call) =>
      && w.snap.live && call in w.resumptions && w.resumptions[call].Asked?
      && S.TurnCanStart(c.snap, w.snap, w.resumptions[call].snapshot)
    case WResume(call, n) =>
      && w.snap.live && call in w.resumptions && w.resumptions[call].Checked?
      && R.Enabled(c.queue, w.race, R.SResume(w.resumptions[call].id, n))
    case WGiveUp(call) => w.snap.live && call in w.resumptions
  }

  function Joined(snap: S.State, race: R.Race, chats: Pins, resumptions: map<CallId, Resumption>): World {
    World(snap.(turns := Seen(race.tables.turns, chats)), race, chats, resumptions)
  }

  // A crash ends the whole process; constructing the agent service recovers its turns.
  ghost function AfterSnap(c: Config, w: World, event: S.Event): World
    requires S.Enabled(c.snap, w.snap, event)
  {
    var snap := S.Apply(c.snap, w.snap, event);
    if event.ECrash? then Joined(snap, R.Apply(c.queue, w.race, R.SRestart), Kept(w.chats, snap.rows), map[])
    else Joined(snap, w.race, Kept(w.chats, snap.rows), w.resumptions)
  }

  ghost function Apply(c: Config, w: World, e: Step): World
    requires Enabled(c, w, e)
  {
    match e
    case WSnap(event) => AfterSnap(c, w, event)
    case WRace(step) =>
      Joined(w.snap, R.Apply(c.queue, w.race, step), ChatsAfter(w.chats, step), w.resumptions)
    case WChat(chat, id) => Joined(w.snap, w.race, w.chats[chat := id], w.resumptions)
    case WAsk(call, id) =>
      w.(resumptions := w.resumptions[call := Asked(id, w.chats[w.race.tables.turns[id].chat])])
    case WCheck(call) =>
      w.(resumptions := w.resumptions[call := Checked(w.resumptions[call].id, w.resumptions[call].snapshot)])
    case WResume(call, n) =>
      Joined(w.snap, R.Apply(c.queue, w.race, R.SResume(w.resumptions[call].id, n)), w.chats, w.resumptions - {call})
    case WGiveUp(call) => w.(resumptions := w.resumptions - {call})
  }

  ghost predicate Possible(c: Config, w: World, es: seq<Step>)
    decreases |es|
  {
    es == [] || (Enabled(c, w, es[0]) && Possible(c, Apply(c, w, es[0]), es[1..]))
  }

  ghost function Run(c: Config, w: World, es: seq<Step>): World
    requires Possible(c, w, es)
    decreases |es|
  {
    if es == [] then w else Run(c, Apply(c, w, es[0]), es[1..])
  }

  // ---------- The interlock ----------

  // The chat's snapshot has its row and its directory, and is not being pruned.
  ghost predicate Intact(w: World, chat: T.ChatId) {
    && chat in w.chats && w.chats[chat] in w.snap.rows && !w.snap.rows[w.chats[chat]].status.Pruning?
    && w.chats[chat] in w.snap.artifacts
  }

  // No queued, pending or running turn loses its snapshot.
  ghost predicate Interlocked(w: World) {
    forall id :: T.IsActive(w.race.tables.turns, id) ==> Intact(w, w.race.tables.turns[id].chat)
  }

  // The pruning side sees the turns of pinned chats, and pins name rows.
  ghost predicate Pinned(w: World) {
    && w.snap.turns == Seen(w.race.tables.turns, w.chats)
    && forall chat :: chat in w.chats ==> w.chats[chat] in w.snap.rows
  }

  ghost predicate Inv(c: Config, w: World) {
    && SnapProofs.Inv(c.snap, w.snap)
    && Pinned(w)
    && (forall id :: T.IsActive(w.race.tables.turns, id) ==> w.race.tables.turns[id].chat in w.chats)
  }

  lemma InvInterlocks(c: Config, w: World)
    requires Inv(c, w)
    ensures Interlocked(w)
  {
    forall id | T.IsActive(w.race.tables.turns, id) ensures Intact(w, w.race.tables.turns[id].chat) {
      assert id in w.snap.turns && w.snap.turns[id].active;
    }
  }

  // resumeTurn requeues a turn whose chat has lost its snapshot, or whose snapshot is marked.
  ghost predicate ResumesLate(w: World, e: Step) {
    && e.WResume? && e.call in w.resumptions && w.resumptions[e.call].id in w.race.tables.turns
    && !Intact(w, w.race.tables.turns[w.resumptions[e.call].id].chat)
  }

  // Replacing what the pruning side sees by turns whose snapshots are intact.
  lemma JoinedKeepsInv(c: Config, snap: S.State, race: R.Race, chats: Pins, resumptions: map<CallId, Resumption>)
    requires SnapProofs.Inv(c.snap, snap)
    requires forall chat :: chat in chats ==> chats[chat] in snap.rows
    requires forall id :: T.IsActive(race.tables.turns, id) ==>
      race.tables.turns[id].chat in chats && !snap.rows[chats[race.tables.turns[id].chat]].status.Pruning?
    ensures Inv(c, Joined(snap, race, chats, resumptions))
  {
    var w := Joined(snap, race, chats, resumptions);
    forall t | t in w.snap.turns && w.snap.turns[t].active
      ensures w.snap.turns[t].snapshot in snap.rows && !snap.rows[w.snap.turns[t].snapshot].status.Pruning?
    {
      assert T.IsActive(race.tables.turns, t);
    }
    SnapProofs.QuietKeepsInv(c.snap, snap, w.snap);
  }

  lemma SnapStepKeepsInv(c: Config, w: World, event: S.Event)
    requires Inv(c, w) && Enabled(c, w, WSnap(event))
    ensures Inv(c, AfterSnap(c, w, event))
  {
    var snap := S.Apply(c.snap, w.snap, event);
    SnapProofs.EventKeepsInv(c.snap, w.snap, event);
    TurnsStay(c.snap, w.snap, event);
    var race := if event.ECrash? then R.Apply(c.queue, w.race, R.SRestart) else w.race;
    forall id | T.IsActive(race.tables.turns, id)
      ensures race.tables.turns[id].chat in Kept(w.chats, snap.rows)
      ensures !snap.rows[Kept(w.chats, snap.rows)[race.tables.turns[id].chat]].status.Pruning?
    {
      assert T.IsActive(w.race.tables.turns, id) && race.tables.turns[id].chat == w.race.tables.turns[id].chat;
      assert id in snap.turns && snap.turns[id].active;
    }
    JoinedKeepsInv(c, snap, race, Kept(w.chats, snap.rows), if event.ECrash? then map[] else w.resumptions);
  }

  lemma TurnsStay(c: S.Config, s: S.State, event: S.Event)
    requires S.Enabled(c, s, event) && !event.EStartTurn? && !event.EEndTurn?
    ensures S.Apply(c, s, event).turns == s.turns
  {}

  // A turn active after a step has an intact snapshot: it had one, or the step just checked it.
  lemma ActiveIsIntact(c: Config, w: World, step: R.Step, race: R.Race, id: T.TurnId)
    requires Interlocked(w) && (forall chat :: chat in w.chats ==> w.chats[chat] in w.snap.rows)
    requires R.Enabled(c.queue, w.race, step) && race == R.Apply(c.queue, w.race, step)
    requires step.SSend? ==> step.chat in w.chats && S.TurnCanStart(c.snap, w.snap, w.chats[step.chat])
    requires step.SResume? ==> Intact(w, w.race.tables.turns[step.id].chat)
    requires T.IsActive(race.tables.turns, id)
    ensures race.tables.turns[id].chat in ChatsAfter(w.chats, step)
    ensures w.chats[race.tables.turns[id].chat] in w.snap.rows
    ensures !w.snap.rows[w.chats[race.tables.turns[id].chat]].status.Pruning?
  {
    R.OnlySubmissionActivates(c.queue, w.race, step, id);
    assert R.WasActive(w.race, race, id) ==> Intact(w, race.tables.turns[id].chat);
  }

  lemma RaceStepKeepsInv(c: Config, w: World, step: R.Step, resumptions: map<CallId, Resumption>)
    requires R.Enabled(c.queue, w.race, step)
    requires step.SSend? ==> step.chat in w.chats && S.TurnCanStart(c.snap, w.snap, w.chats[step.chat])
    requires step.SResume? ==> Intact(w, w.race.tables.turns[step.id].chat)
    requires Inv(c, w)
    ensures Inv(c, Joined(w.snap, R.Apply(c.queue, w.race, step), ChatsAfter(w.chats, step), resumptions))
  {
    var race, chats := R.Apply(c.queue, w.race, step), ChatsAfter(w.chats, step);
    InvInterlocks(c, w);
    forall id | T.IsActive(race.tables.turns, id)
      ensures race.tables.turns[id].chat in chats
      ensures !w.snap.rows[chats[race.tables.turns[id].chat]].status.Pruning?
    {
      ActiveIsIntact(c, w, step, race, id);
    }
    JoinedKeepsInv(c, w.snap, race, chats, resumptions);
  }

  lemma ChatStepKeepsInv(c: Config, w: World, chat: T.ChatId, id: S.SnapId)
    requires Inv(c, w) && Enabled(c, w, WChat(chat, id))
    ensures Inv(c, Apply(c, w, WChat(chat, id)))
  {
    InvInterlocks(c, w);
    forall t | T.IsActive(w.race.tables.turns, t)
      ensures !w.snap.rows[w.chats[chat := id][w.race.tables.turns[t].chat]].status.Pruning?
    {
      assert Intact(w, w.race.tables.turns[t].chat);
    }
    JoinedKeepsInv(c, w.snap, w.race, w.chats[chat := id], w.resumptions);
  }

  lemma ResumeStepKeepsInv(c: Config, w: World, call: CallId, n: nat)
    requires Inv(c, w) && Enabled(c, w, WResume(call, n)) && !ResumesLate(w, WResume(call, n))
    ensures Inv(c, Apply(c, w, WResume(call, n)))
  {
    RaceStepKeepsInv(c, w, R.SResume(w.resumptions[call].id, n), w.resumptions - {call});
  }

  /** One step, exactly: only a late resumption breaks the interlock, and it always does. */
  lemma StepInterlocks(c: Config, w: World, e: Step)
    requires Inv(c, w) && Enabled(c, w, e)
    ensures Interlocked(Apply(c, w, e)) <==> !ResumesLate(w, e)
    ensures !ResumesLate(w, e) ==> Inv(c, Apply(c, w, e))
  {
    if ResumesLate(w, e) {
      LateBreaks(c, w, e);
    } else {
      match e {
        case WSnap(event) => SnapStepKeepsInv(c, w, event);
        case WRace(step) => RaceStepKeepsInv(c, w, step, w.resumptions);
        case WChat(chat, id) => ChatStepKeepsInv(c, w, chat, id);
        case WResume(call, n) => ResumeStepKeepsInv(c, w, call, n);
        case _ =>
      }
      InvInterlocks(c, Apply(c, w, e));
    }
  }

  lemma LateBreaks(c: Config, w: World, e: Step)
    requires Enabled(c, w, e) && ResumesLate(w, e)
    ensures !Interlocked(Apply(c, w, e))
  {
    var t := Apply(c, w, e);
    var id := w.resumptions[e.call].id;
    assert T.IsActive(t.race.tables.turns, id);
    assert !Intact(t, t.race.tables.turns[id].chat);
  }

  // ---------- Runs ----------

  ghost predicate AlwaysInterlocked(c: Config, w: World, es: seq<Step>)
    requires Possible(c, w, es)
    decreases |es|
  {
    Interlocked(w) && (es != [] ==> AlwaysInterlocked(c, Apply(c, w, es[0]), es[1..]))
  }

  ghost predicate NeverLate(c: Config, w: World, es: seq<Step>)
    requires Possible(c, w, es)
    decreases |es|
  {
    es != [] ==> !ResumesLate(w, es[0]) && NeverLate(c, Apply(c, w, es[0]), es[1..])
  }

  lemma {:induction false} RunsInterlockExactly(c: Config, w: World, es: seq<Step>)
    requires Inv(c, w) && Possible(c, w, es)
    ensures AlwaysInterlocked(c, w, es) <==> NeverLate(c, w, es)
    decreases |es|
  {
    InvInterlocks(c, w);
    if es != [] {
      StepInterlocks(c, w, es[0]);
      if ResumesLate(w, es[0]) {
        assert !AlwaysInterlocked(c, Apply(c, w, es[0]), es[1..]);
      } else {
        RunsInterlockExactly(c, Apply(c, w, es[0]), es[1..]);
      }
    }
  }

  /** Over all interleavings of both services, crashes included, every queued, pending or running turn
      keeps its snapshot's row and directory and is not being pruned, throughout the run, exactly when
      no resumption in it requeues a turn whose snapshot has gone or been marked since its check. */
  lemma TurnsKeepSnapshotsExactly(c: Config, es: seq<Step>)
    requires Possible(c, EMPTY, es)
    ensures AlwaysInterlocked(c, EMPTY, es) <==> NeverLate(c, EMPTY, es)
  {
    assert SnapProofs.Inv(c.snap, S.EMPTY);
    NothingIsInv(c, EMPTY);
    RunsInterlockExactly(c, EMPTY, es);
  }

  lemma NothingSeen(turns: map<T.TurnId, T.Turn>, chats: Pins, seen: map<S.TurnId, S.Turn>)
    requires (forall t :: t !in turns) && forall t :: t !in seen
    ensures seen == Seen(turns, chats)
  {}

  lemma NothingIsInv(c: Config, w: World)
    requires SnapProofs.Inv(c.snap, w.snap)
    requires (forall t :: t !in w.snap.turns) && (forall t :: t !in w.race.tables.turns) && forall k :: k !in w.chats
    ensures Inv(c, w)
  {
    NothingSeen(w.race.tables.turns, w.chats, w.snap.turns);
    assert forall id :: !T.IsActive(w.race.tables.turns, id);
  }
}
