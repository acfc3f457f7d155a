/** The match workflow: previews, a veto window, and one introduction. */
module Workflow {
  import opened Text

  type MemberId = string
  type Millis = int
  /** A parsed timestamp; None is one that does not parse. */
  type Stamp = Option<Millis>

  datatype MatchState =
    | PROPOSED | PREVIEWS_QUEUED | VETO_WINDOW | READY_TO_INTRODUCE | INTRODUCTION_QUEUED
    | INTRODUCED | VETOED | INVALIDATED_BY_CORRECTION | CANCELLED_BY_STOP | CANCELLED_BY_DELETION
    | DELIVERY_FAILED

  datatype Decision = PENDING | APPROVE | PASS | CORRECT | STOP | DELETE

  datatype Preview = Preview(messageId: Option<string>, deliveredAt: Option<Millis>,
                             decision: Decision, decidedAt: Option<Millis>)

  datatype Event =
    | MatchProposed(at: Millis)
    | PreviewsQueued(at: Millis)
    | PreviewSent(at: Millis, member: MemberId, messageId: string)
    | VetoWindowOpened(at: Millis, deadlineAt: Millis)
    | PreviewDecided(at: Millis, member: MemberId, decision: Decision)
    | BothSidesApproved(at: Millis)
    | VetoWindowCleared(at: Millis)
    | IntroductionQueued(at: Millis)
    | Introduced(at: Millis, messageId: string)

  /** `first` and `second` are the keys of `previews`; a preview with a Message-ID is SENT. */
  datatype Match = Match(
    matchId: string, first: MemberId, second: MemberId, state: MatchState, vetoWindowMs: int, deadlineAt: Option<Millis>,
    previews: map<MemberId, Preview>, messageId: Option<string>, sentAt: Option<Millis>,
    history: seq<Event>)

  datatype Refusal =
    | Ineligible | NotTwoMembers | BadWindow | InvalidTimestamp | Terminal | WrongState
    | UnknownMember | MissingMessageId | OtherMessageId | BadDecision | PreviewNotSent | AlreadyBlocked

  type Checked<+T> = Result<T, Refusal>

  predicate IsTerminal(s: MatchState) {
    s in {INTRODUCED, VETOED, INVALIDATED_BY_CORRECTION, CANCELLED_BY_STOP,
          CANCELLED_BY_DELETION, DELIVERY_FAILED}
  }

  /** The state a blocking decision ends in. */
  function BlockedState(d: Decision): Option<MatchState> {
    match d
    case PASS => Some(VETOED)
    case CORRECT => Some(INVALIDATED_BY_CORRECTION)
    case STOP => Some(CANCELLED_BY_STOP)
    case DELETE => Some(CANCELLED_BY_DELETION)
    case _ => None
  }

  predicate IsSent(p: Preview) {
    p.messageId.Some?
  }

  // ----- transitions ------------------------------------------------------

  const UNSENT := Preview(None, None, PENDING, None)

  function ProposeMatch(matchId: string, eligible: bool, members: seq<MemberId>, createdAt: Stamp,
                        vetoWindowMs: int): Checked<Match> {
    if !eligible then Err(Ineligible)
    else if |members| != 2 || members[0] == members[1] then Err(NotTwoMembers)
    else if vetoWindowMs <= 0 then Err(BadWindow)
    else if createdAt.None? then Err(InvalidTimestamp)
    else Ok(Match(matchId, members[0], members[1], PROPOSED, vetoWindowMs, None,
                  map[members[0] := UNSENT, members[1] := UNSENT], None, None,
                  [MatchProposed(createdAt.value)]))
  }

  function QueuePreviews(w: Match, queuedAt: Stamp): Checked<Match> {
    if w.state == PREVIEWS_QUEUED then Ok(w)
    else if IsTerminal(w.state) then Err(Terminal)
    else if w.state != PROPOSED then Err(WrongState)
    else if queuedAt.None? then Err(InvalidTimestamp)
    else Ok(w.(state := PREVIEWS_QUEUED, history := w.history + [PreviewsQueued(queuedAt.value)]))
  }

  function Later(a: Option<Millis>, b: Option<Millis>): Option<Millis> {
    match (a, b)
    case (Some(x), Some(y)) => Some(if x < y then y else x)
    case _ => None
  }

  predicate Formed(w: Match) {
    w.first != w.second && w.previews.Keys == {w.first, w.second}
  }

  /** Both previews sent: the veto window opens. */
  function Opened(w: Match, at: Millis): Match
    requires Formed(w)
  {
    match Later(w.previews[w.first].deliveredAt, w.previews[w.second].deliveredAt)
    case None => w
    case Some(latest) =>
      var deadline := latest + w.vetoWindowMs;
      w.(deadlineAt := Some(deadline), state := VETO_WINDOW,
         history := w.history + [VetoWindowOpened(at, deadline)])
  }

  function MarkPreviewSent(w: Match, m: MemberId, messageId: string, sentAt: Stamp): Checked<Match>
    requires Formed(w)
  {
    if IsTerminal(w.state) then Err(Terminal)
    else if m !in w.previews then Err(UnknownMember)
    else if w.state != PREVIEWS_QUEUED && w.state != VETO_WINDOW then Err(WrongState)
    else if messageId == "" then Err(MissingMessageId)
    else if IsSent(w.previews[m]) then
      if w.previews[m].messageId == Some(messageId) then Ok(w) else Err(OtherMessageId)
    else if sentAt.None? then Err(InvalidTimestamp)
    else
      var p := w.previews[m].(messageId := Some(messageId), deliveredAt := sentAt);
      Ok(Opened(w.(previews := w.previews[m := p],
                   history := w.history + [PreviewSent(sentAt.value, m, messageId)]), sentAt.value))
  }

  predicate BothApprove(w: Match)
    requires Formed(w)
  {
    w.previews[w.first].decision == APPROVE && w.previews[w.second].decision == APPROVE
  }

  function RecordPreviewDecision(w: Match, m: MemberId, d: Decision, decidedAt: Stamp): Checked<Match>
    requires Formed(w)
  {
    if IsTerminal(w.state) then Err(Terminal)
    else if m !in w.previews then Err(UnknownMember)
    else if w.state != VETO_WINDOW && w.state != READY_TO_INTRODUCE then Err(WrongState)
    else if d == PENDING then Err(BadDecision)
    else if !IsSent(w.previews[m]) then Err(PreviewNotSent)
    else
      var current := w.previews[m].decision;
      if current == d then Ok(w)
      else if current != PENDING && current != APPROVE then Err(AlreadyBlocked)
      else if decidedAt.None? then Err(InvalidTimestamp)
      else
        var at := decidedAt.value;
        var next := w.(
          previews := w.previews[m := w.previews[m].(decision := d, decidedAt := decidedAt)],
          state := if BlockedState(d).Some? then BlockedState(d).value else w.state,
          history := w.history + [PreviewDecided(at, m, d)]);
        if BothApprove(next) then
          Ok(next.(state := READY_TO_INTRODUCE, history := next.history + [BothSidesApproved(at)]))
        else Ok(next)
  }

  function AdvanceVetoDeadline(w: Match, now: Stamp): Checked<Match> {
    if IsTerminal(w.state) then Err(Terminal)
    else if w.state != VETO_WINDOW then Ok(w)
    else if now.None? then Err(InvalidTimestamp)
    else if w.deadlineAt.Some? && now.value < w.deadlineAt.value then Ok(w)
    else Ok(w.(state := READY_TO_INTRODUCE, history := w.history + [VetoWindowCleared(now.value)]))
  }

  function QueueIntroduction(w: Match, queuedAt: Stamp): Checked<Match> {
    if IsTerminal(w.state) then Err(Terminal)
    else if w.state == INTRODUCTION_QUEUED then Ok(w)
    else if w.state != READY_TO_INTRODUCE then Err(WrongState)
    else if queuedAt.None? then Err(InvalidTimestamp)
    else Ok(w.(state := INTRODUCTION_QUEUED, history := w.history + [IntroductionQueued(queuedAt.value)]))
  }

  function MarkIntroduced(w: Match, messageId: string, sentAt: Stamp): Checked<Match> {
    if w.state == INTRODUCED then
      if w.messageId == Some(messageId) then Ok(w) else Err(OtherMessageId)
    else if IsTerminal(w.state) then Err(Terminal)
    else if w.state != INTRODUCTION_QUEUED then Err(WrongState)
    else if messageId == "" then Err(MissingMessageId)
    else if sentAt.None? then Err(InvalidTimestamp)
    else Ok(w.(state := INTRODUCED, messageId := Some(messageId), sentAt := sentAt,
               history := w.history + [Introduced(sentAt.value, messageId)]))
  }

  datatype Action =
    | QueueBoth(at: Stamp)
    | Deliver(member: MemberId, messageId: string, at: Stamp)
    | Decide(member: MemberId, decision: Decision, at: Stamp)
    | Tick(at: Stamp)
    | QueueIntro(at: Stamp)
    | Introduce(messageId: string, at: Stamp)

  /** One call; a call that throws leaves the stored match as it was. */
  function Apply(w: Match, a: Action): Match
    requires Formed(w)
  {
    var r := match a
      case QueueBoth(at) => QueuePreviews(w, at)
      case Deliver(m, id, at) => MarkPreviewSent(w, m, id, at)
      case Decide(m, d, at) => RecordPreviewDecision(w, m, d, at)
      case Tick(at) => AdvanceVetoDeadline(w, at)
      case QueueIntro(at) => QueueIntroduction(w, at)
      case Introduce(id, at) => MarkIntroduced(w, id, at);
    if r.Ok? then r.value else w
  }

  // ----- what every run keeps ---------------------------------------------

  predicate BothSent(w: Match)
    requires Formed(w)
  {
    IsSent(w.previews[w.first]) && IsSent(w.previews[w.second])
  }

  /** A time at or past the deadline was supplied while the window was open. */
  ghost predicate DeadlinePassed(w: Match) {
    && w.deadlineAt.Some?
    && exists e :: e in w.history && e.VetoWindowCleared? && e.at >= w.deadlineAt.value
  }

  /** The later delivery plus the window, once both previews are delivered. */
  function Deadline(w: Match): Option<Millis>
    requires Formed(w)
  {
    match Later(w.previews[w.first].deliveredAt, w.previews[w.second].deliveredAt)
    case Some(latest) => Some(latest + w.vetoWindowMs)
    case None => None
  }

  ghost predicate PreviewsOk(w: Match)
    requires Formed(w)
  {
    && w.vetoWindowMs > 0
    && (forall m :: m in w.previews ==> (IsSent(w.previews[m]) <==> w.previews[m].deliveredAt.Some?))
    && (w.state == PROPOSED ==> forall m :: m in w.previews ==> !IsSent(w.previews[m]))
    && (w.state == PROPOSED || w.state == PREVIEWS_QUEUED <==> !BothSent(w))
    && (forall m :: m in w.previews && w.previews[m].decision != PENDING ==> BothSent(w))
    && w.deadlineAt == Deadline(w)
  }

  /** A blocking decision always coincides with its own terminal state. */
  ghost predicate BlocksOk(w: Match) {
    forall m :: m in w.previews ==> BlockedState(w.previews[m].decision) in {None, Some(w.state)}
  }

  ghost predicate BlockedByAMember(w: Match) {
    exists m :: m in w.previews && BlockedState(w.previews[m].decision) == Some(w.state)
  }

  ghost predicate Inv(w: Match) {
    && Formed(w) && PreviewsOk(w) && BlocksOk(w)
    && w.state != DELIVERY_FAILED
    && (w.state in {VETOED, INVALIDATED_BY_CORRECTION, CANCELLED_BY_STOP, CANCELLED_BY_DELETION}
        ==> BlockedByAMember(w))
    && (w.state in {READY_TO_INTRODUCE, INTRODUCTION_QUEUED, INTRODUCED}
        ==> BothApprove(w) || DeadlinePassed(w))
    && (w.messageId.Some? <==> w.state == INTRODUCED)
  }

  lemma ProposedIsSound(matchId: string, eligible: bool, members: seq<MemberId>, createdAt: Stamp,
                        vetoWindowMs: int)
    ensures var r := ProposeMatch(matchId, eligible, members, createdAt, vetoWindowMs);
            r.Ok? ==> Inv(r.value) && Replays(r.value)
  {
    var r := ProposeMatch(matchId, eligible, members, createdAt, vetoWindowMs);
    if r.Ok? {
      assert r.value.history[..0] == [];
    }
  }

  /** What a delivery that takes effect does. */
  lemma DeliverShape(w: Match, m: MemberId, id: string, at: Stamp)
    requires Formed(w) && Apply(w, Deliver(m, id, at)) != w
    ensures var next := Apply(w, Deliver(m, id, at));
            && m in w.previews && at.Some? && Formed(next) && !IsSent(w.previews[m])
            && next.previews == w.previews[m := w.previews[m].(messageId := Some(id), deliveredAt := at)]
            && (w.state == PREVIEWS_QUEUED || w.state == VETO_WINDOW)
            && next.messageId == w.messageId && next.vetoWindowMs == w.vetoWindowMs
    ensures var next := Apply(w, Deliver(m, id, at));
            if Deadline(next).Some? then next.state == VETO_WINDOW && next.deadlineAt == Deadline(next)
            else next.state == w.state && next.deadlineAt == w.deadlineAt
  {
    var next := Apply(w, Deliver(m, id, at));
    assert next.previews.Keys == w.previews.Keys;
  }

  lemma DeliverKeepsPreviews(w: Match, m: MemberId, id: string, at: Stamp)
    requires Formed(w) && PreviewsOk(w) && Apply(w, Deliver(m, id, at)) != w
    ensures var next := Apply(w, Deliver(m, id, at)); Formed(next) && PreviewsOk(next)
  {
    DeliverShape(w, m, id, at);
    var next := Apply(w, Deliver(m, id, at));
    assert Deadline(next).Some? <==> BothSent(next);
    assert w.state == PREVIEWS_QUEUED;
  }

  lemma DeliverKeepsInv(w: Match, m: MemberId, id: string, at: Stamp)
    requires Inv(w)
    ensures Inv(Apply(w, Deliver(m, id, at)))
  {
    var next := Apply(w, Deliver(m, id, at));
    if next != w {
      DeliverShape(w, m, id, at);
      DeliverKeepsPreviews(w, m, id, at);
      forall n | n in next.previews
        ensures BlockedState(next.previews[n].decision) in {None, Some(next.state)}
      {
        assert BlockedState(w.previews[n].decision) in {None, Some(w.state)};
      }
    }
  }

  /** What a decision that takes effect does. */
  lemma DecideShape(w: Match, m: MemberId, d: Decision, at: Stamp)
    requires Formed(w) && Apply(w, Decide(m, d, at)) != w
    ensures var next := Apply(w, Decide(m, d, at));
            && m in w.previews && at.Some?
            && next.previews == w.previews[m := w.previews[m].(decision := d, decidedAt := at)]
            && (w.state == VETO_WINDOW || w.state == READY_TO_INTRODUCE)
            && BlockedState(w.previews[m].decision) == None
            && next.(state := w.state, previews := w.previews, history := w.history) == w
            && w.history <= next.history && d != PENDING && d != w.previews[m].decision
    ensures var next := Apply(w, Decide(m, d, at));
            next.state == if BothApprove(next) then READY_TO_INTRODUCE
                          else if BlockedState(d).Some? then BlockedState(d).value else w.state
  {
    var next := Apply(w, Decide(m, d, at));
    assert next.previews.Keys == w.previews.Keys;
  }

  lemma DecideKeepsPreviews(w: Match, m: MemberId, d: Decision, at: Stamp)
    requires Formed(w) && PreviewsOk(w) && Apply(w, Decide(m, d, at)) != w
    ensures Formed(Apply(w, Decide(m, d, at))) && PreviewsOk(Apply(w, Decide(m, d, at)))
  {
    DecideShape(w, m, d, at);
  }

  lemma DecideKeepsBlocks(w: Match, m: MemberId, d: Decision, at: Stamp)
    requires Formed(w) && BlocksOk(w) && Apply(w, Decide(m, d, at)) != w
    ensures BlocksOk(Apply(w, Decide(m, d, at)))
    ensures BlockedState(d).Some? ==> BlockedByAMember(Apply(w, Decide(m, d, at)))
  {
    DecideShape(w, m, d, at);
    var next := Apply(w, Decide(m, d, at));
    assert next.previews[m].decision == d;
    forall n | n in next.previews
      ensures BlockedState(next.previews[n].decision) in {None, Some(next.state)}
    {
      if n != m { assert BlockedState(w.previews[n].decision) in {None, Some(w.state)}; }
    }
  }

  lemma DecideKeepsInv(w: Match, m: MemberId, d: Decision, at: Stamp)
    requires Inv(w)
    ensures Inv(Apply(w, Decide(m, d, at)))
  {
    if Apply(w, Decide(m, d, at)) != w {
      DecideKeepsPreviews(w, m, d, at);
      DecideKeepsBlocks(w, m, d, at);
      DecideKeepsReady(w, m, d, at);
    }
  }

  lemma DecideKeepsReady(w: Match, m: MemberId, d: Decision, at: Stamp)
    requires Inv(w) && Apply(w, Decide(m, d, at)) != w
    requires BlockedState(d).Some? ==> BlockedByAMember(Apply(w, Decide(m, d, at)))
    ensures var next := Apply(w, Decide(m, d, at));
            && next.state != DELIVERY_FAILED && (next.messageId.Some? <==> next.state == INTRODUCED)
            && (next.state in {VETOED, INVALIDATED_BY_CORRECTION, CANCELLED_BY_STOP, CANCELLED_BY_DELETION}
                ==> BlockedByAMember(next))
    ensures var next := Apply(w, Decide(m, d, at));
            next.state in {READY_TO_INTRODUCE, INTRODUCTION_QUEUED, INTRODUCED}
            ==> BothApprove(next) || DeadlinePassed(next)
  {
    DecideShape(w, m, d, at);
    var next := Apply(w, Decide(m, d, at));
    if BothApprove(w) {
      assert w.previews[m].decision == APPROVE;
      assert BlockedState(d).Some?;
    }
    if DeadlinePassed(w) { PassedStaysPassed(w, next); }
  }

  lemma PassedStaysPassed(w: Match, next: Match)
    requires DeadlinePassed(w) && next.deadlineAt == w.deadlineAt && w.history <= next.history
    ensures DeadlinePassed(next)
  {
    var e :| e in w.history && e.VetoWindowCleared? && e.at >= w.deadlineAt.value;
    assert e in next.history;
  }

  lemma StepKeepsInv(w: Match, a: Action)
    requires Inv(w)
    ensures Inv(Apply(w, a))
  {
    match a
    case Deliver(m, id, at) => DeliverKeepsInv(w, m, id, at);
    case Decide(m, d, at) => DecideKeepsInv(w, m, d, at);
    case Tick(at) =>
      var next := Apply(w, a);
      if next != w { assert VetoWindowCleared(at.value) in next.history; }
    case _ =>
  }

  /** A terminal match never changes again, and history is only ever appended to. */
  lemma StepKeepsTerminal(w: Match, a: Action)
    requires Formed(w)
    ensures IsTerminal(w.state) ==> Apply(w, a) == w
    ensures w.history <= Apply(w, a).history
    ensures Apply(w, a).first == w.first && Apply(w, a).second == w.second
  {
  }

  // ----- replaying history ------------------------------------------------

  /** What one event says happened. */
  function Effect(w: Match, e: Event): Match {
    var n := w.(history := w.history + [e]);
    match e
    case MatchProposed(_) => n.(state := PROPOSED)
    case PreviewsQueued(_) => n.(state := PREVIEWS_QUEUED)
    case PreviewSent(at, m, id) =>
      if m in n.previews
      then n.(previews := n.previews[m := n.previews[m].(messageId := Some(id), deliveredAt := Some(at))])
      else n
    case VetoWindowOpened(_, deadline) => n.(state := VETO_WINDOW, deadlineAt := Some(deadline))
    case PreviewDecided(at, m, d) =>
      if m in n.previews
      then n.(previews := n.previews[m := n.previews[m].(decision := d, decidedAt := Some(at))],
              state := if BlockedState(d).Some? then BlockedState(d).value else n.state)
      else n
    case BothSidesApproved(_) => n.(state := READY_TO_INTRODUCE)
    case VetoWindowCleared(_) => n.(state := READY_TO_INTRODUCE)
    case IntroductionQueued(_) => n.(state := INTRODUCTION_QUEUED)
    case Introduced(at, id) => n.(state := INTRODUCED, messageId := Some(id), sentAt := Some(at))
  }

  /** The match before anything happened to it. */
  function Blank(w: Match): Match {
    Match(w.matchId, w.first, w.second, PROPOSED, w.vetoWindowMs, None,
          map[w.first := UNSENT, w.second := UNSENT], None, None, [])
  }

  function Replay(start: Match, history: seq<Event>): Match
    decreases |history|
  {
    if history == [] then start
    else Effect(Replay(start, history[..|history| - 1]), history[|history| - 1])
  }

  lemma ReplaySnoc(start: Match, history: seq<Event>, e: Event)
    ensures Replay(start, history + [e]) == Effect(Replay(start, history), e)
  {
    var all := history + [e];
    assert all[..|all| - 1] == history;
  }

  ghost predicate Replays(w: Match) {
    Replay(Blank(w), w.history) == w
  }

  lemma EffectReplays(w: Match, e: Event)
    requires Replays(w)
    ensures Replays(Effect(w, e))
  {
    ReplaySnoc(Blank(w), w.history, e);
  }

  /** A call appends at most two events and does exactly what they say. */
  ghost predicate Explained(w: Match, next: Match, es: seq<Event>) {
    || (es == [] && next == w)
    || (|es| == 1 && next == Effect(w, es[0]))
    || (|es| == 2 && next == Effect(Effect(w, es[0]), es[1]))
  }

  lemma DeliverIsExplained(w: Match, m: MemberId, id: string, at: Stamp) returns (es: seq<Event>)
    requires Formed(w)
    ensures Explained(w, Apply(w, Deliver(m, id, at)), es)
  {
    var next := Apply(w, Deliver(m, id, at));
    if next == w {
      es := [];
    } else {
      var e := PreviewSent(at.value, m, id);
      var sent := Effect(w, e);
      es := [e] + (if next == sent then [] else [VetoWindowOpened(at.value, next.deadlineAt.value)]);
    }
  }

  lemma DecideIsExplained(w: Match, m: MemberId, d: Decision, at: Stamp) returns (es: seq<Event>)
    requires Formed(w)
    ensures Explained(w, Apply(w, Decide(m, d, at)), es)
  {
    var next := Apply(w, Decide(m, d, at));
    if next == w {
      es := [];
    } else {
      var e := PreviewDecided(at.value, m, d);
      es := [e] + (if next == Effect(w, e) then [] else [BothSidesApproved(at.value)]);
    }
  }

  lemma OtherIsExplained(w: Match, a: Action) returns (es: seq<Event>)
    requires Formed(w) && !a.Deliver? && !a.Decide?
    ensures Explained(w, Apply(w, a), es)
  {
    var next := Apply(w, a);
    es := if next == w then [] else [next.history[|w.history|]];
  }

  lemma ExplainedReplays(w: Match, next: Match, es: seq<Event>)
    requires Replays(w) && Explained(w, next, es)
    ensures Replays(next)
  {
    if |es| > 0 { EffectReplays(w, es[0]); }
    if |es| > 1 { EffectReplays(Effect(w, es[0]), es[1]); }
  }

  /** A match and the replay of its history never come apart. */
  lemma StepReplays(w: Match, a: Action)
    requires Formed(w) && Replays(w)
    ensures Replays(Apply(w, a))
  {
    var next, es := Apply(w, a), [];
    if a.Deliver? {
      es := DeliverIsExplained(w, a.member, a.messageId, a.at);
    } else if a.Decide? {
      es := DecideIsExplained(w, a.member, a.decision, a.at);
    } else {
      es := OtherIsExplained(w, a);
    }
    ExplainedReplays(w, next, es);
  }

  // ----- every run --------------------------------------------------------

  ghost predicate Run(w: Match, actions: seq<Action>, final: Match)
    requires Formed(w)
    decreases |actions|
  {
    if actions == [] then final == w
    else
      StepKeepsTerminal(w, actions[0]);
      Formed(Apply(w, actions[0])) && Run(Apply(w, actions[0]), actions[1..], final)
  }

  lemma {:induction false} EveryRun(w: Match, actions: seq<Action>, final: Match)
    requires Inv(w) && Replays(w) && Run(w, actions, final)
    ensures Inv(final) && Replays(final)
    ensures w.history <= final.history
    ensures IsTerminal(w.state) ==> final == w
    ensures w.messageId.Some? ==> final.messageId == w.messageId
    decreases |actions|
  {
    if actions != [] {
      StepKeepsInv(w, actions[0]);
      StepReplays(w, actions[0]);
      StepKeepsTerminal(w, actions[0]);
      EveryRun(Apply(w, actions[0]), actions[1..], final);
    }
  }

  /**
   In every run from a proposal, an introduction means that both previews were
   sent, nobody objected, and either both approved or a time at or past the
   deadline was supplied; the deadline is the later delivery plus the window.
   */
  lemma IntroductionIsEarned(matchId: string, members: seq<MemberId>, createdAt: Stamp, vetoWindowMs: int,
                             actions: seq<Action>, final: Match)
    requires ProposeMatch(matchId, true, members, createdAt, vetoWindowMs).Ok?
    requires Formed(ProposeMatch(matchId, true, members, createdAt, vetoWindowMs).value)
    requires Run(ProposeMatch(matchId, true, members, createdAt, vetoWindowMs).value, actions, final)
    requires final.state == INTRODUCED
    ensures Formed(final) && BothSent(final)
    ensures forall m :: m in final.previews ==> final.previews[m].decision in {PENDING, APPROVE}
    ensures BothApprove(final) || DeadlinePassed(final)
    ensures final.deadlineAt.Some? && final.deadlineAt == Deadline(final)
    ensures final.messageId.Some?
  {
    ProposedIsSound(matchId, true, members, createdAt, vetoWindowMs);
    EveryRun(ProposeMatch(matchId, true, members, createdAt, vetoWindowMs).value, actions, final);
    forall m | m in final.previews ensures final.previews[m].decision in {PENDING, APPROVE} {
      assert BlockedState(final.previews[m].decision) in {None, Some(INTRODUCED)};
    }
  }
}
