/** What becomes of chats, resumptions and the turns the pruning side sees, at every step of both services. */
module InterlockOutcomes {
  import S = Snapshots
  import T = AgentTurns
  import R = AgentRaces
  import opened TurnInterlocks

  // The step deletes the chat, whose turns go with it.
  ghost predicate DropsChat(e: Step, chat: T.ChatId) { e == WRace(R.SDeleteChat(chat)) }

  // A chat is pinned by its creation and keeps its pin until it is deleted or the snapshot's row is.
  ghost predicate ChatMoves(w: World, e: Step, v: World, chat: T.ChatId) {
    && (chat in v.chats <==>
          (e.WChat? && e.chat == chat)
          || (chat in w.chats && w.chats[chat] in v.snap.rows && !DropsChat(e, chat)))
    && (chat in v.chats ==>
          if e.WChat? && e.chat == chat then v.chats[chat] == e.snapshot
          else chat in w.chats && v.chats[chat] == w.chats[chat])
  }

  // A call of resumeTurn remembers the snapshot its turn's chat had at its beginning.
  ghost predicate ResumptionMoves(w: World, e: Step, v: World, call: CallId) {
    && (call in v.resumptions <==>
          (e.WAsk? && e.call == call) || (call in w.resumptions && !EndsResumption(e, call)))
    && (call in v.resumptions ==> ResumptionAfter(w, e, call, v.resumptions[call]))
  }

  ghost predicate EndsResumption(e: Step, call: CallId) {
    (e.WResume? && e.call == call) || e == WGiveUp(call) || e == WSnap(S.ECrash)
  }

  ghost predicate ResumptionAfter(w: World, e: Step, call: CallId, r: Resumption) {
    if e.WAsk? && e.call == call
    then e.id in w.race.tables.turns && w.race.tables.turns[e.id].chat in w.chats
         && r == Asked(e.id, w.chats[w.race.tables.turns[e.id].chat])
    else call in w.resumptions
         && r == if e == WCheck(call) then Checked(w.resumptions[call].id, w.resumptions[call].snapshot)
                 else w.resumptions[call]
  }

  // The pruning side sees exactly the turns whose chats are pinned, with their pins.
  ghost predicate SeesTurn(v: World, id: T.TurnId) {
    && (id in v.snap.turns <==> id in v.race.tables.turns && v.race.tables.turns[id].chat in v.chats)
    && (id in v.snap.turns ==>
          && v.snap.turns[id].snapshot == v.chats[v.race.tables.turns[id].chat]
          && (v.snap.turns[id].active <==> v.race.tables.turns[id].status in {T.Queued, T.Pending, T.Running}))
  }

  // Which of the two machines steps: a crash takes the agent service with it.
  ghost predicate MachinesMove(c: Config, w: World, e: Step, v: World)
    requires Enabled(c, w, e)
  {
    var snap := if e.WSnap? then S.Apply(c.snap, w.snap, e.event) else w.snap;
    && v.snap == snap.(turns := v.snap.turns)
    && v.race ==
       match e
       case WRace(step) => R.Apply(c.queue, w.race, step)
       case WResume(call, n) => R.Apply(c.queue, w.race, R.SResume(w.resumptions[call].id, n))
       case WSnap(event) => if event == S.ECrash then R.Apply(c.queue, w.race, R.SRestart) else w.race
       case _ => w.race
  }

  lemma MachinesMoveExactly(c: Config, w: World, e: Step, v: World)
    requires Enabled(c, w, e) && v == Apply(c, w, e)
    ensures MachinesMove(c, w, e, v)
  {}

  // A crash ends every call.
  lemma SnapStepResumes(w: World, event: S.Event, v: World, call: CallId)
    requires v.resumptions == if event == S.ECrash then map[] else w.resumptions
    ensures ResumptionMoves(w, WSnap(event), v, call)
  {}

  lemma ResumptionsMoveExactly(c: Config, w: World, e: Step, v: World, call: CallId)
    requires Enabled(c, w, e) && v == Apply(c, w, e)
    ensures ResumptionMoves(w, e, v, call)
  {
    if e.WSnap? {
      SnapStepResumes(w, e.event, v, call);
    } else {
      OtherStepResumes(c, w, e, v, call);
    }
  }

  lemma OtherStepResumes(c: Config, w: World, e: Step, v: World, call: CallId)
    requires Enabled(c, w, e) && v == Apply(c, w, e) && !e.WSnap?
    ensures ResumptionMoves(w, e, v, call)
  {}

  lemma JoinedSees(snap: S.State, race: R.Race, chats: Pins, resumptions: map<CallId, Resumption>, id: T.TurnId)
    ensures SeesTurn(Joined(snap, race, chats, resumptions), id)
  {}

  // Steps of the snapshot machine: pins follow the rows.
  lemma SnapStepMoves(w: World, event: S.Event, snap: S.State, race: R.Race,
                      resumptions: map<CallId, Resumption>, chat: T.ChatId, id: T.TurnId)
    ensures ChatMoves(w, WSnap(event), Joined(snap, race, Kept(w.chats, snap.rows), resumptions), chat)
    ensures SeesTurn(Joined(snap, race, Kept(w.chats, snap.rows), resumptions), id)
  {}

  // Any other step leaves the rows alone.
  lemma OtherStepMoves(c: Config, w: World, e: Step, v: World, chat: T.ChatId, id: T.TurnId)
    requires Pinned(w) && Enabled(c, w, e) && v == Apply(c, w, e) && !e.WSnap?
    ensures ChatMoves(w, e, v, chat) && SeesTurn(v, id)
  {
    JoinedSees(w.snap, v.race, v.chats, v.resumptions, id);
  }

  /** What every step of either service does to a pin, and that the pruning side always sees exactly the turns
      of pinned chats. */
  lemma PinsMoveExactly(c: Config, w: World, e: Step, v: World, chat: T.ChatId, id: T.TurnId)
    requires Pinned(w) && Enabled(c, w, e) && v == Apply(c, w, e)
    ensures ChatMoves(w, e, v, chat) && SeesTurn(v, id)
  {
    if e.WSnap? {
      SnapStepMoves(w, e.event, S.Apply(c.snap, w.snap, e.event), v.race, v.resumptions, chat, id);
    } else {
      OtherStepMoves(c, w, e, v, chat, id);
    }
  }
}
