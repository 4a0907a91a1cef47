/**
 * One run of the context-compaction journey against an unknown app: the turns stay within their bound, the
 * probe always has its turn, and the evidence of every turn is what the chat shows at the last one.
 */
module Journey {
  import opened Wrappers
  import opened JourneyText

  const MAX_ROUTE_BYTES: nat := 8 * 1024 * 1024

  datatype Kind = Brief | Correction | Rule | Filler | Probe

  /** The compaction marker on an answer. */
  datatype Marker = Marker(outcome: string, beforeTokens: nat)
  datatype Session = Session(approximate: nat, window: Option<nat>, reserved: nat, afterAnswer: bool)

  datatype Input = Input(kind: Kind, turn: nat, compaction: Option<Marker>, settled: bool, session: Option<Session>,
                         answerTokens: nat, toolCalls: nat, reported: Option<nat>, bought: Option<bool>)

  /** A turn's evidence; shares and ratios are rounded to three decimals. */
  datatype Round = Round(kind: Kind, turn: nat, outcome: Option<string>, share: Option<real>, summaryAt: Option<real>, ratio: Option<real>,
                         bought: Option<bool>)

  /** What the app does with a turn: it fails before its evidence is read or while it is, or it answers. */
  datatype Reply = Reply(early: Option<string>, late: Option<string>, id: string, markers: string -> Option<Marker>,
                         session: Option<Session>, answerTokens: nat, toolCalls: nat, reported: Option<nat>, bought: Option<bool>,
                         complete: bool)

  datatype Result = Answered(session: Session) | TurnBound | BytesBound | Stopped(code: string)

  // ---------------------------------------------------------------- one turn's evidence

  function Budget(s: Session): Option<nat> {
    match s.window case None => None case Some(w) => Some(EngineTokens(w, s.reserved))
  }

  /** To three decimals, halves upwards. */
  function Rounded(x: real): real {
    (x * 1000.0 + 0.5).Floor as real / 1000.0
  }

  function Share(tokens: nat, session: Option<Session>): Option<real> {
    if session.Some? && Budget(session.value).Some? && Budget(session.value).value > 0
    then Some(Rounded(tokens as real / Budget(session.value).value as real)) else None
  }

  function Estimated(i: Input): Option<nat> {
    match i.session
    case None => None
    case Some(s) =>
      var after := if s.afterAnswer then i.answerTokens else 0;
      Some(if s.approximate < after then 0 else s.approximate - after)
  }

  predicate SingleRequest(i: Input) {
    i.toolCalls == 0 && i.compaction.None? && !i.settled
  }

  function RoundOf(i: Input): Round {
    var estimated := Estimated(i);
    Round(i.kind, i.turn, match i.compaction case Some(m) => Some(m.outcome) case None => None,
          if estimated.Some? then Share(estimated.value, i.session) else None,
          if i.compaction.Some? && i.compaction.value.outcome == "summary_applied" then Share(i.compaction.value.beforeTokens, i.session) else None,
          if estimated.Some? && estimated.value > 0 && i.reported.Some? && i.reported.value > 0 && SingleRequest(i)
          then Some(Rounded(i.reported.value as real / estimated.value as real)) else None,
          i.bought)
  }

  /** The nearest thousandth. */
  lemma RoundedIs(x: real)
    ensures x - 0.0005 < Rounded(x) <= x + 0.0005 && Rounded(x) * 1000.0 == (Rounded(x) * 1000.0).Floor as real
  {
    var n := (x * 1000.0 + 0.5).Floor;
    assert Rounded(x) * 1000.0 == n as real;
  }

  /** What the session measured is the request as sent: without the answer, if it was measured after it. */
  predicate Measured(i: Input, s: Session, estimated: nat) {
    i.session == Some(s) &&
    if s.afterAnswer then estimated + i.answerTokens == s.approximate || (estimated == 0 && s.approximate < i.answerTokens)
    else estimated == s.approximate
  }

  /** A turn's evidence from what was read of it. */
  lemma RoundMeans(i: Input, s: Session, estimated: nat)
    requires Measured(i, s, estimated)
    ensures var r := RoundOf(i);
            && r.kind == i.kind && r.turn == i.turn && r.bought == i.bought
            && (r.outcome == None <==> i.compaction == None) && (forall m :: i.compaction == Some(m) ==> r.outcome == Some(m.outcome))
    ensures RoundOf(i).ratio.Some? <==>
            estimated > 0 && i.reported.Some? && i.reported.value > 0 && i.toolCalls == 0 && i.compaction == None && !i.settled
    ensures RoundOf(i).ratio.Some? ==> RoundOf(i).ratio.value == Rounded(i.reported.value as real / estimated as real)
    ensures RoundOf(i).share.Some? <==> s.window.Some? && s.window.value > s.reserved
    ensures RoundOf(i).share.Some? ==> RoundOf(i).share.value == Rounded(estimated as real / (s.window.value - s.reserved) as real)
    ensures RoundOf(i).summaryAt.Some? <==>
            s.window.Some? && s.window.value > s.reserved && i.compaction.Some? && i.compaction.value.outcome == "summary_applied"
    ensures RoundOf(i).summaryAt.Some? ==>
              RoundOf(i).summaryAt.value == Rounded(i.compaction.value.beforeTokens as real / (s.window.value - s.reserved) as real)
  {
    hide Rounded;
  }

  /** Without a session there is no measure. */
  lemma NoMeasure(i: Input)
    requires i.session == None
    ensures RoundOf(i).share == None && RoundOf(i).summaryAt == None && RoundOf(i).ratio == None
    ensures RoundOf(i).kind == i.kind && RoundOf(i).turn == i.turn && RoundOf(i).bought == i.bought
    ensures RoundOf(i).outcome == None <==> i.compaction == None
  {
    hide Rounded;
  }

  predicate HasSummary(rounds: seq<Round>) {
    exists i :: 0 <= i < |rounds| && rounds[i].summaryAt.Some?
  }

  /** The inputs with the markers the chat shows now. */
  function Refreshed(inputs: seq<Input>, ids: seq<string>, markers: string -> Option<Marker>): seq<Input>
    requires |ids| == |inputs|
  {
    seq(|inputs|, i requires 0 <= i < |inputs| => inputs[i].(compaction := markers(ids[i])))
  }

  predicate AnyMoved(inputs: seq<Input>, ids: seq<string>, markers: string -> Option<Marker>)
    requires |ids| == |inputs|
  {
    exists i :: 0 <= i < |inputs| && inputs[i].compaction != markers(ids[i])
  }

  function NewInput(kind: Kind, turn: nat, settled: bool, reply: Reply): Input {
    Input(kind, turn, reply.markers(reply.id), settled, reply.session, reply.answerTokens, reply.toolCalls, reply.reported, reply.bought)
  }

  /** The inputs after an answer: the earlier ones as the chat shows them now, and the answer's own. */
  function WithReply(inputs: seq<Input>, ids: seq<string>, kind: Kind, reply: Reply): seq<Input>
    requires |ids| == |inputs|
  {
    var settled := AnyMoved(inputs, ids, reply.markers);
    Refreshed(inputs, ids, reply.markers) + [NewInput(kind, |inputs| + 1, settled, reply)]
  }

  /** After an answer each earlier turn has the marker shown now, and the answer's own says whether any of them changed. */
  lemma ReplyMeans(inputs: seq<Input>, ids: seq<string>, kind: Kind, reply: Reply)
    requires |ids| == |inputs|
    ensures var n, all := |inputs|, WithReply(inputs, ids, kind, reply);
            && |all| == n + 1 && (forall i :: 0 <= i < n ==> all[i] == inputs[i].(compaction := reply.markers(ids[i])))
            && all[n].kind == kind && all[n].turn == n + 1 && all[n].compaction == reply.markers(reply.id) && all[n].session == reply.session
            && all[n].answerTokens == reply.answerTokens && all[n].toolCalls == reply.toolCalls
            && all[n].reported == reply.reported && all[n].bought == reply.bought
            && (all[n].settled <==> exists i :: 0 <= i < n && inputs[i].compaction != reply.markers(ids[i]))
  {
  }

  // ---------------------------------------------------------------- the plan of a run

  /**
   * The texts of a run: the brief and the fillers for a token target, and the sizes of the fixed messages. `header` and
   * `source` say what a filler is made of.
   */
  datatype Plan = Plan(brief: Builder, filler: nat -> Builder, correction: nat -> nat, rule: nat, probe: nat, budget: nat,
                       header: nat, source: nat -> Source)

  predicate KindAt(rounds: seq<Round>, i: nat, probed: bool)
    requires i < |rounds|
  {
    rounds[i].turn == i + 1 &&
    rounds[i].kind == if i == 0 then Brief else if i <= 2 then Correction else if i == 3 then Rule
                      else if probed && i == |rounds| - 1 then Probe else Filler
  }

  predicate InOrder(rounds: seq<Round>, probed: bool) {
    forall i :: 0 <= i < |rounds| ==> KindAt(rounds, i, probed)
  }

  function BudgetOr(s: Session, otherwise: nat): nat {
    if Budget(s).Some? then Budget(s).value else otherwise
  }

  /** What was asked so far: the turns' inputs and answers, the tokens each text was built for, and its bytes. */
  datatype Log = Log(inputs: seq<Input>, ids: seq<string>, targets: seq<nat>, sent: seq<nat>)

  /** Each turn's evidence is that of its input. */
  ghost predicate AreRounds(rounds: seq<Round>, inputs: seq<Input>) {
    |rounds| == |inputs| && forall i :: 0 <= i < |rounds| ==> rounds[i] == RoundOf(inputs[i])
  }

  /** Each turn's marker is that of its answer. */
  ghost predicate AllShown(inputs: seq<Input>, ids: seq<string>, markers: string -> Option<Marker>) {
    |ids| == |inputs| && forall i :: 0 <= i < |inputs| ==> inputs[i].compaction == markers(ids[i])
  }

  ghost predicate Sized(log: Log) {
    |log.inputs| == |log.ids| == |log.targets| == |log.sent|
  }

  function Sum(s: seq<nat>): nat {
    if s == [] then 0 else Sum(s[..|s| - 1]) + s[|s| - 1]
  }

  /** The evidence of the first `n` turns as these markers show it. */
  function EvidenceAt(log: Log, markers: string -> Option<Marker>, n: nat): seq<Round>
    requires n <= |log.inputs| == |log.ids|
  {
    seq(n, i requires 0 <= i < n => RoundOf(log.inputs[i].(compaction := markers(log.ids[i]))))
  }

  /** The text of target `target` was made for `tokens` and weighs `bytes`. */
  ghost predicate Made(b: Builder, tokens: nat, target: nat, bytes: nat) {
    Fitted(b, tokens, target) && bytes == b.size(b.build(target))
  }

  /**
   * What turn `n` sends: the brief for 18 per cent of the budget, the corrections, the rule, then fillers, each planned from
   * the session of the turn before, while no summary shows; the probe as soon as one does, or when only its turn is left.
   */
  ghost predicate Due(plan: Plan, maxTurns: nat, n: nat, previous: Option<Session>, summary: bool, kind: Kind, target: nat, bytes: nat) {
    if n == 0 then kind == Brief && Made(plan.brief, plan.budget * 18 / 100, target, bytes)
    else if n <= 2 then kind == Correction && bytes == plan.correction(n - 1)
    else if n == 3 then kind == Rule && bytes == plan.rule
    else if summary || n >= maxTurns - 1 then kind == Probe && bytes == plan.probe
    else kind == Filler && previous.Some? &&
         Made(plan.filler(n - 4), NextFiller(previous.value.approximate, BudgetOr(previous.value, plan.budget)), target, bytes)
  }

  function Previous(log: Log, n: nat): Option<Session>
    requires n <= |log.inputs|
  {
    if n == 0 then None else log.inputs[n - 1].session
  }

  /** Turn `n` sent what was due, as far as the chat showed summaries when the turn before it was answered. */
  ghost predicate DueAt(log: Log, plan: Plan, replies: nat -> Reply, maxTurns: nat, n: nat)
    requires Sized(log) && n < |log.inputs|
  {
    Due(plan, maxTurns, n, Previous(log, n), HasSummary(EvidenceAt(log, replies(n).markers, n)), log.inputs[n].kind, log.targets[n], log.sent[n])
  }

  ghost predicate Planned(log: Log, plan: Plan, replies: nat -> Reply, maxTurns: nat) {
    Sized(log) && forall n: nat :: n < |log.inputs| ==> DueAt(log, plan, replies, maxTurns, n)
  }

  /** How a turn within its bound ends: it is refused for its bytes, fails where the app does, or is answered. */
  function Outcome(bytes: nat, total: nat, reply: Reply): (r: Result)
    ensures r == BytesBound <==> bytes > 917_504 || total > 8_388_608
    ensures r.Stopped? ==> StoppedBy(reply, r.code)
    ensures r.Answered? ==> reply.session == Some(r.session) && reply.early == None && reply.late == None && reply.complete
    ensures r != TurnBound
  {
    if bytes > MAX_MESSAGE_BYTES || total > MAX_ROUTE_BYTES then BytesBound
    else if reply.early.Some? then Stopped(reply.early.value)
    else if reply.late.Some? then Stopped(reply.late.value)
    else if !reply.complete then Stopped("turn_not_complete")
    else if reply.session.None? then Stopped("session_status_missing")
    else Answered(reply.session.value)
  }

  /** The app's reply explains the code. */
  predicate StoppedBy(reply: Reply, code: string) {
    reply.early == Some(code) || reply.late == Some(code) || (!reply.complete && code == "turn_not_complete") ||
    (reply.session == None && code == "session_status_missing")
  }

  /** Some text of the plan cannot be sent, however it is made. */
  ghost predicate Oversized(plan: Plan) {
    Unsendable(plan.brief, plan.budget * 18 / 100) || plan.correction(0) > 917_504 || plan.correction(1) > 917_504 ||
    plan.rule > 917_504 || plan.probe > 917_504 || exists k: nat, tokens: nat :: Unsendable(plan.filler(k), tokens)
  }

  /** A run ends without its last answer only for a reason: the bound, a text or a route too large, or the reply of the turn under way. */
  ghost predicate Excused(r: Result, plan: Plan, replies: nat -> Reply, turns: nat, maxTurns: nat, requestBytes: nat) {
    match r
    case Answered(_) => true
    case TurnBound => turns >= maxTurns
    case BytesBound => requestBytes > 8_388_608 || Oversized(plan)
    case Stopped(code) => StoppedBy(replies(turns), code) || StoppedBy(replies(turns + 1), code)
  }

  class Run {
    const maxTurns: nat
    var rounds: seq<Round>
    var inputs: seq<Input>
    var ids: seq<string>
    var requestBytes: nat
    /** The tokens each turn's text was built for, zero for a fixed message, and the bytes it was sent with. */
    ghost var targets: seq<nat>
    ghost var sent: seq<nat>

    constructor (maxTurns: nat)
      ensures Valid() && rounds == [] && requestBytes == 0 && this.maxTurns == maxTurns
    {
      this.maxTurns := maxTurns;
      rounds, inputs, ids, requestBytes, targets, sent := [], [], [], 0, [], [];
    }

    ghost function Asked(): Log
      reads this
    {
      Log(inputs, ids, targets, sent)
    }

    /** Every turn's evidence is that of its input, and no turn is past the bound. */
    ghost predicate Valid()
      reads this
    {
      && |rounds| == |inputs| <= maxTurns && Sized(Asked()) && AreRounds(rounds, inputs)
    }

    /** Earlier turns' markers are read again: evidence of a summary that landed since replaces what was read before. */
    method Refresh(markers: string -> Option<Marker>) returns (settled: bool)
      requires Valid()
      modifies this`rounds, this`inputs
      ensures Valid() && inputs == Refreshed(old(inputs), ids, markers)
      ensures settled == AnyMoved(old(inputs), ids, markers)
      ensures SummariesShow(rounds, inputs, ids, markers) && !AnyMoved(inputs, ids, markers)
    {
      hide RoundOf, SummariesShow;
      settled := false;
      ghost var before := inputs;
      for i := 0 to |inputs|
        invariant |inputs| == |before| && Valid()
        invariant settled <==> exists k :: 0 <= k < i && before[k].compaction != markers(ids[k])
        invariant forall k :: 0 <= k < i ==> inputs[k] == before[k].(compaction := markers(ids[k]))
        invariant forall k :: i <= k < |before| ==> inputs[k] == before[k]
      {
        var compaction := markers(ids[i]);
        if compaction != inputs[i].compaction {
          settled := true;
          var refreshed := inputs[i].(compaction := compaction);
          inputs := inputs[i := refreshed];
          rounds := rounds[i := RoundOf(refreshed)];
        }
      }
      LandedShow(rounds, inputs, ids, markers);
    }

    /** One message and its answer. A turn past the bound is refused before anything is sent. */
    method Turn(kind: Kind, bytes: nat, ghost target: nat, reply: Reply) returns (r: Result)
      requires Valid()
      modifies this`rounds, this`inputs, this`ids, this`requestBytes, this`targets, this`sent
      ensures Valid() && SameTurns(old(Asked()), Asked(), kind, target, bytes)
      ensures |old(rounds)| >= maxTurns ==> r == TurnBound && requestBytes == old(requestBytes) && inputs == old(inputs)
      ensures |old(rounds)| < maxTurns ==> requestBytes == old(requestBytes) + bytes && r == Outcome(bytes, requestBytes, reply)
      ensures r.Answered? ==> ids == old(ids) + [reply.id] && sent == old(sent) + [bytes] && reply.session == Some(r.session)
      ensures r.Answered? ==> inputs == WithReply(old(inputs), old(ids), kind, reply)
    {
      hide RoundOf, AnyMoved, SummariesShow, SameTurns, WithReply;
      ghost var log := Asked();
      Unanswered(log, kind, target, bytes, reply);
      var number := |rounds| + 1;
      if number > maxTurns { return TurnBound; }
      requestBytes := requestBytes + bytes;
      if bytes > MAX_MESSAGE_BYTES || requestBytes > MAX_ROUTE_BYTES { return BytesBound; }
      if reply.early.Some? { return Stopped(reply.early.value); }
      var settled := Refresh(reply.markers);
      if reply.late.Some? { return Stopped(reply.late.value); }
      var input := NewInput(kind, number, settled, reply);
      ids := ids + [reply.id];
      inputs := inputs + [input];
      rounds := rounds + [RoundOf(input)];
      targets, sent := targets + [target], sent + [bytes];
      WithAnswer(log, Asked(), kind, target, bytes, reply);
      if !reply.complete { return Stopped("turn_not_complete"); }
      if reply.session.None? { return Stopped("session_status_missing"); }
      return Answered(reply.session.value);
    }

    /** The evidence is what the chat shows: every turn's marker as of the last one. */
    ghost predicate Shows(markers: string -> Option<Marker>)
      reads this
    {
      AllShown(inputs, ids, markers)
    }

    /** Every turn sent what was due. */
    ghost predicate AsPlanned(plan: Plan, replies: nat -> Reply)
      reads this
    {
      Valid() && Planned(Asked(), plan, replies, maxTurns)
    }

    /** And each was answered, so the next may be sent. */
    ghost predicate Ready(plan: Plan, replies: nat -> Reply, probed: bool)
      reads this
    {
      && AsPlanned(plan, replies) && InOrder(rounds, probed) && requestBytes == Sum(sent) <= 8_388_608
      && (rounds != [] ==> Shows(replies(|rounds|).markers) && inputs[|inputs| - 1].session.Some?)
    }

    /** A turn of the run in its place: the app's reply is the one for its number. */
    method Send(kind: Kind, bytes: nat, ghost target: nat, ghost plan: Plan, replies: nat -> Reply) returns (r: Result)
      requires Ready(plan, replies, false)
      requires Due(plan, maxTurns, |rounds|, Previous(Asked(), |rounds|), HasSummary(rounds), kind, target, bytes)
      modifies this`rounds, this`inputs, this`ids, this`requestBytes, this`targets, this`sent
      ensures AsPlanned(plan, replies) && (r == TurnBound <==> |old(rounds)| >= maxTurns)
      ensures Excused(r, plan, replies, |rounds|, maxTurns, requestBytes)
      ensures r.Answered? ==> Ready(plan, replies, kind == Probe) && |rounds| == |old(rounds)| + 1
      ensures r.Answered? ==> inputs[|inputs| - 1].session == Some(r.session) && inputs[|inputs| - 1].kind == kind
    {
      hide RoundOf, AnyMoved, HasSummary, WithReply, Due, InOrder, Oversized, StoppedBy, Excused, Outcome, AreRounds, AllShown, SameTurns, Sum, Planned;
      ghost var before, log := rounds, Asked();
      r := Turn(kind, bytes, target, replies(|rounds| + 1));
      Sent(before, log, rounds, Asked(), kind, target, bytes, replies, plan, maxTurns, requestBytes, r);
    }

    method SendFitted(kind: Kind, b: Builder, tokens: nat, ghost plan: Plan, replies: nat -> Reply) returns (r: Result)
      requires Ready(plan, replies, false) && kind != Probe
      requires Unsendable(b, tokens) ==> Oversized(plan)
      requires forall target: nat :: Fitted(b, tokens, target) ==>
                 Due(plan, maxTurns, |rounds|, Previous(Asked(), |rounds|), HasSummary(rounds), kind, target, b.size(b.build(target)))
      modifies this`rounds, this`inputs, this`ids, this`requestBytes, this`targets, this`sent
      ensures AsPlanned(plan, replies) && (r == TurnBound ==> |old(rounds)| >= maxTurns)
      ensures Excused(r, plan, replies, |rounds|, maxTurns, requestBytes)
      ensures r.Answered? ==> Ready(plan, replies, false) && |rounds| == |old(rounds)| + 1
      ensures r.Answered? ==> inputs[|inputs| - 1].session == Some(r.session) && inputs[|inputs| - 1].kind == kind
    {
      hide Due, HasSummary, Fitted, Unsendable, Oversized, StoppedBy, Planned, RoundOf, InOrder, Sum, Run.Shows;
      var text, target := BoundedMessage(b, tokens);
      if text.None? { return BytesBound; }
      r := Send(kind, b.size(text.value), target, plan, replies);
    }

    /** The brief, two corrections and the rule. */
    method Open(plan: Plan, replies: nat -> Reply) returns (r: Result)
      requires Valid() && rounds == [] && requestBytes == 0
      modifies this`rounds, this`inputs, this`ids, this`requestBytes, this`targets, this`sent
      ensures AsPlanned(plan, replies) && (r == TurnBound ==> maxTurns < 4)
      ensures Excused(r, plan, replies, |rounds|, maxTurns, requestBytes)
      ensures r.Answered? ==> |rounds| == 4 && Ready(plan, replies, false) && inputs[|inputs| - 1].session == Some(r.session)
    {
      hide HasSummary, RoundOf, NextFiller, Fitted, Run.Shows, StoppedBy, Unsendable;
      r := SendFitted(Brief, plan.brief, plan.budget * 18 / 100, plan, replies);
      for k := 0 to 2
        invariant AsPlanned(plan, replies) && (r == TurnBound ==> maxTurns < 4)
        invariant Excused(r, plan, replies, |rounds|, maxTurns, requestBytes)
        invariant r.Answered? ==> |rounds| == k + 1 && Ready(plan, replies, false)
      {
        if !r.Answered? { return; }
        r := Send(Correction, plan.correction(k), 0, plan, replies);
      }
      if !r.Answered? { return; }
      r := Send(Rule, plan.rule, 0, plan, replies);
    }

    /**
     * The whole run, for every behaviour of the app. With room for five turns or more the bound is never the reason to
     * stop; fillers go on until a summary shows or only the probe's turn is left.
     */
    method RunJourney(plan: Plan, replies: nat -> Reply) returns (r: Result)
      requires Valid() && rounds == [] && requestBytes == 0
      modifies this`rounds, this`inputs, this`ids, this`requestBytes, this`targets, this`sent
      ensures AsPlanned(plan, replies) && (r == TurnBound ==> maxTurns < 5) && Excused(r, plan, replies, |rounds|, maxTurns, requestBytes)
      ensures forall longest: nat :: longest <= 16160 && Grows(plan, Asked(), longest) ==> BandKept(inputs)
      ensures plan.header <= 256 ==> forall longest: nat :: longest <= 6928 && Grows(plan, Asked(), longest) ==> CrossingKept(inputs)
      ensures r.Answered? ==> Ready(plan, replies, true) && 5 <= |rounds| && inputs[|inputs| - 1].kind == Probe
    {
      hide Due, HasSummary, BandKept, CrossingKept, Grows, Planned, RoundOf;
      r := Open(plan, replies);
      if r.Answered? {
        r := Fill(plan, replies, r);
      }
      if r.Answered? {
        ProbeDue(plan, maxTurns, |rounds|, Previous(Asked(), |rounds|), HasSummary(rounds));
        r := Send(Probe, plan.probe, 0, plan, replies);
      }
      PlannedKeepsBand(plan, Asked(), replies, maxTurns);
    }

    /** Fillers until a summary shows or only the probe's turn is left. */
    method Fill(plan: Plan, replies: nat -> Reply, last: Result) returns (r: Result)
      requires Ready(plan, replies, false) && |rounds| == 4
      requires last.Answered? && inputs[|inputs| - 1].session == Some(last.session)
      modifies this`rounds, this`inputs, this`ids, this`requestBytes, this`targets, this`sent
      ensures AsPlanned(plan, replies) && r != TurnBound && Excused(r, plan, replies, |rounds|, maxTurns, requestBytes)
      ensures r.Answered? ==> Ready(plan, replies, false) && 4 <= |rounds| && (|rounds| > 4 ==> |rounds| < maxTurns)
      ensures r.Answered? ==> HasSummary(rounds) || |rounds| >= maxTurns - 1
    {
      hide Due, HasSummary, InOrder, NextFiller, Sum, Planned, RoundOf, Run.Shows, Fitted, Sized, StoppedBy, Unsendable, Oversized;
      r := last;
      var filler := 0;
      while |rounds| < maxTurns - 1
        invariant r.Answered? && Ready(plan, replies, false) && |rounds| == 4 + filler
        invariant filler > 0 ==> |rounds| <= maxTurns - 1
        invariant inputs[|inputs| - 1].session == Some(r.session)
        decreases maxTurns - |rounds|
      {
        if HasSummary(rounds) { break; }
        var budget := if Budget(r.session).Some? then Budget(r.session).value else plan.budget;
        FillerDue(plan, maxTurns, |rounds|, r.session);
        FillerOversized(plan, filler, NextFiller(r.session.approximate, budget));
        r := SendFitted(Filler, plan.filler(filler), NextFiller(r.session.approximate, budget), plan, replies);
        if !r.Answered? { return; }
        filler := filler + 1;
      }
    }
  }

  lemma SumNext(s: seq<nat>, n: nat)
    ensures Sum(s + [n]) == Sum(s) + n
  {
    assert (s + [n])[..|s|] == s;
  }

  lemma Explained(r: Result, plan: Plan, replies: nat -> Reply, before: nat, turns: nat, maxTurns: nat, total: nat, bytes: nat)
    requires before <= turns <= before + 1 && (bytes > 917_504 ==> Oversized(plan))
    requires if before >= maxTurns then r == TurnBound else r == Outcome(bytes, total, replies(before + 1))
    ensures Excused(r, plan, replies, turns, maxTurns, total)
  {
    hide Oversized, StoppedBy;
  }

  /** What is due fits a message, unless the plan's own texts do not. */
  lemma TooLarge(plan: Plan, maxTurns: nat, n: nat, previous: Option<Session>, summary: bool, kind: Kind, target: nat, bytes: nat)
    requires Due(plan, maxTurns, n, previous, summary, kind, target, bytes) && bytes > 917_504
    ensures Oversized(plan)
  {
    hide NextFiller;
  }

  lemma FillerDue(plan: Plan, maxTurns: nat, n: nat, s: Session)
    requires 4 <= n < maxTurns - 1
    ensures var b, tokens := plan.filler(n - 4), NextFiller(s.approximate, BudgetOr(s, plan.budget));
            forall target: nat :: Fitted(b, tokens, target) ==> Due(plan, maxTurns, n, Some(s), false, Filler, target, b.size(b.build(target)))
  {
  }

  lemma FillerOversized(plan: Plan, k: nat, tokens: nat)
    ensures Unsendable(plan.filler(k), tokens) ==> Oversized(plan)
  {
  }

  lemma ProbeDue(plan: Plan, maxTurns: nat, n: nat, previous: Option<Session>, summary: bool)
    requires n >= 4 && (summary || n >= maxTurns - 1)
    ensures Due(plan, maxTurns, n, previous, summary, Probe, 0, plan.probe)
  {
  }

  /** Where every marker is as the chat shows it, the evidence is. */
  lemma ShownEvidence(log: Log, rounds: seq<Round>, markers: string -> Option<Marker>)
    requires Sized(log) && AreRounds(rounds, log.inputs) && AllShown(log.inputs, log.ids, markers)
    ensures EvidenceAt(log, markers, |rounds|) == rounds
  {
  }

  // ---------------------------------------------------------------- the 72-85 % band

  /** The turns are those before, with at most one more, and only their markers may differ. */
  ghost predicate SameTurns(before: Log, after: Log, kind: Kind, target: nat, bytes: nat) {
    && Sized(before) && Sized(after) && |before.inputs| <= |after.inputs| <= |before.inputs| + 1
    && (forall i :: 0 <= i < |before.inputs| ==> after.inputs[i] == before.inputs[i].(compaction := after.inputs[i].compaction))
    && before.ids <= after.ids && before.targets <= after.targets && before.sent <= after.sent
    && (|after.inputs| > |before.inputs| ==>
          after.inputs[|before.inputs|].kind == kind && after.targets[|before.inputs|] == target && after.sent[|before.inputs|] == bytes)
  }

  lemma Unanswered(log: Log, kind: Kind, target: nat, bytes: nat, reply: Reply)
    requires Sized(log)
    ensures SameTurns(log, log, kind, target, bytes)
    ensures SameTurns(log, log.(inputs := Refreshed(log.inputs, log.ids, reply.markers)), kind, target, bytes)
  {
  }

  lemma WithAnswer(log: Log, after: Log, kind: Kind, target: nat, bytes: nat, reply: Reply)
    requires Sized(log) && after.ids == log.ids + [reply.id] && after.targets == log.targets + [target] && after.sent == log.sent + [bytes]
    requires after.inputs == Refreshed(log.inputs, log.ids, reply.markers) +
                             [NewInput(kind, |log.inputs| + 1, AnyMoved(log.inputs, log.ids, reply.markers), reply)]
    ensures after.inputs == WithReply(log.inputs, log.ids, kind, reply) && SameTurns(log, after, kind, target, bytes)
  {
    hide AnyMoved;
  }

  lemma SameEvidence(before: Log, after: Log, kind: Kind, target: nat, bytes: nat, markers: string -> Option<Marker>, n: nat)
    requires SameTurns(before, after, kind, target, bytes) && n <= |before.inputs|
    ensures EvidenceAt(after, markers, n) == EvidenceAt(before, markers, n) && Previous(after, n) == Previous(before, n)
  {
    forall i | 0 <= i < n ensures EvidenceAt(after, markers, n)[i] == EvidenceAt(before, markers, n)[i] {
      assert after.inputs[i] == before.inputs[i].(compaction := after.inputs[i].compaction);
      assert after.ids[i] == before.ids[i];
    }
  }

  lemma StillPlanned(before: Log, after: Log, kind: Kind, target: nat, bytes: nat, plan: Plan, replies: nat -> Reply, maxTurns: nat)
    requires SameTurns(before, after, kind, target, bytes) && Planned(before, plan, replies, maxTurns)
    requires var n := |before.inputs|;
             Due(plan, maxTurns, n, Previous(before, n), HasSummary(EvidenceAt(before, replies(n).markers, n)), kind, target, bytes)
    ensures Planned(after, plan, replies, maxTurns)
  {
    hide Due, HasSummary;
    forall n: nat | n < |after.inputs| ensures DueAt(after, plan, replies, maxTurns, n) {
      SameEvidence(before, after, kind, target, bytes, replies(n).markers, n);
      if n < |before.inputs| {
        assert DueAt(before, plan, replies, maxTurns, n);
        assert after.targets[n] == before.targets[n] && after.sent[n] == before.sent[n];
      }
    }
  }

  /** What was due is next in order, and after the answer the evidence is what the chat shows. */
  lemma OrderNext(before: seq<Round>, log: Log, rounds: seq<Round>, after: Log, kind: Kind, target: nat, bytes: nat, reply: Reply, plan: Plan,
                  maxTurns: nat)
    requires Sized(log) && Sized(after) && AreRounds(before, log.inputs) && AreRounds(rounds, after.inputs) && InOrder(before, false)
    requires after.inputs == WithReply(log.inputs, log.ids, kind, reply) && after.ids == log.ids + [reply.id]
    requires Due(plan, maxTurns, |before|, Previous(log, |before|), HasSummary(before), kind, target, bytes)
    ensures |rounds| == |before| + 1 && InOrder(rounds, kind == Probe)
    ensures AllShown(after.inputs, after.ids, reply.markers)
    ensures after.inputs[|before|].kind == kind && after.inputs[|before|].session == reply.session
  {
    hide HasSummary, Made, NextFiller, AnyMoved;
    var n, probed := |before|, kind == Probe;
    forall i | 0 <= i < |rounds| ensures KindAt(rounds, i, probed) {
      assert rounds[i] == RoundOf(after.inputs[i]);
      if i < n {
        assert KindAt(before, i, false);
        assert before[i] == RoundOf(log.inputs[i]);
        SameKind(log.inputs[i], after.inputs[i]);
      }
    }
  }

  /** A turn that was due is as planned, ends for a reason and, once answered, leaves the run ready for the next. */
  lemma Sent(before: seq<Round>, log: Log, rounds: seq<Round>, after: Log, kind: Kind, target: nat, bytes: nat, replies: nat -> Reply, plan: Plan,
             maxTurns: nat, total: nat, r: Result)
    requires Sized(log) && AreRounds(before, log.inputs) && AreRounds(rounds, after.inputs) && InOrder(before, false)
    requires Planned(log, plan, replies, maxTurns) && SameTurns(log, after, kind, target, bytes)
    requires before != [] ==> AllShown(log.inputs, log.ids, replies(|before|).markers)
    requires Due(plan, maxTurns, |before|, Previous(log, |before|), HasSummary(before), kind, target, bytes)
    requires if |before| >= maxTurns then r == TurnBound else r == Outcome(bytes, total, replies(|before| + 1))
    requires r.Answered? ==> after.ids == log.ids + [replies(|before| + 1).id] && after.sent == log.sent + [bytes] &&
                             after.inputs == WithReply(log.inputs, log.ids, kind, replies(|before| + 1))
    ensures Planned(after, plan, replies, maxTurns) && Excused(r, plan, replies, |rounds|, maxTurns, total)
    ensures r.Answered? ==>
              && |rounds| == |before| + 1 && InOrder(rounds, kind == Probe) && Sum(after.sent) == Sum(log.sent) + bytes && total <= 8_388_608
              && AllShown(after.inputs, after.ids, replies(|rounds|).markers)
              && after.inputs[|before|].kind == kind && after.inputs[|before|].session == Some(r.session)
  {
    hide RoundOf, AnyMoved, HasSummary, WithReply, Due, InOrder, Oversized, StoppedBy, Excused, Outcome, Sum, Planned, EvidenceAt;
    assert AllShown(log.inputs, log.ids, replies(|before|).markers);
    hide AllShown;
    ShownEvidence(log, before, replies(|before|).markers);
    if bytes > 917_504 {
      TooLarge(plan, maxTurns, |before|, Previous(log, |before|), HasSummary(before), kind, target, bytes);
    }
    StillPlanned(log, after, kind, target, bytes, plan, replies, maxTurns);
    Explained(r, plan, replies, |before|, |rounds|, maxTurns, total, bytes);
    if r.Answered? {
      SumNext(log.sent, bytes);
      OrderNext(before, log, rounds, after, kind, target, bytes, replies(|before| + 1), plan, maxTurns);
    }
  }

  lemma SameKind(a: Input, b: Input)
    requires a.kind == b.kind && a.turn == b.turn
    ensures RoundOf(a).kind == RoundOf(b).kind && RoundOf(a).turn == RoundOf(b).turn
  {
  }

  /** A filler's target is no larger than planned from the session before it. */
  lemma FillerTarget(log: Log, plan: Plan, replies: nat -> Reply, maxTurns: nat, i: nat)
    requires Planned(log, plan, replies, maxTurns) && i < |log.inputs| && log.inputs[i].kind == Filler
    ensures i >= 4 && log.inputs[i - 1].session.Some?
    ensures var s := log.inputs[i - 1].session.value;
            log.targets[i] <= NextFiller(s.approximate, BudgetOr(s, plan.budget))
  {
    assert DueAt(log, plan, replies, maxTurns, i);
    hide HasSummary, NextFiller;
  }

  /** Two answered turns of one admitted window. */
  predicate OneWindow(a: Input, b: Input) {
    a.session.Some? && b.session.Some? && a.session.value.window == b.session.value.window && a.session.value.window.Some? &&
    MIN_WINDOW <= a.session.value.window.value <= MAX_WINDOW &&
    a.session.value.reserved == ANSWER_TOKENS
  }

  /** Every filler turn adds at most its text and its answer, whose estimates keep to their bounds. */
  ghost predicate Grows(plan: Plan, log: Log, longest: nat) {
    && Sized(log) && plan.header <= HEADER_MAX && (forall k: nat, i: nat :: plan.source(k).Tokens(i) <= longest)
    && forall i :: 4 <= i < |log.inputs| && log.inputs[i].kind == Filler ==> GrowsAt(plan, log, i)
  }

  ghost predicate GrowsAt(plan: Plan, log: Log, i: nat)
    requires Sized(log) && 4 <= i < |log.inputs|
  {
    OneWindow(log.inputs[i - 1], log.inputs[i]) && log.inputs[i].answerTokens <= ANSWER_TOKENS &&
    log.inputs[i].session.value.approximate <=
      log.inputs[i - 1].session.value.approximate + FillerTokens(plan.source(i - 4), plan.header, log.targets[i]) + log.inputs[i].answerTokens
  }

  /** The turn takes the measure from below the trigger to the swap. */
  ghost predicate SkipsBand(before: Input, turn: Input) {
    before.session.Some? && turn.session.Some? && Budget(before.session.value).Some? &&
    !PastTrigger(before.session.value.approximate, Budget(before.session.value).value) &&
    PastSwap(turn.session.value.approximate, Budget(before.session.value).value)
  }

  ghost predicate BandKept(inputs: seq<Input>) {
    forall i :: 4 <= i < |inputs| && inputs[i].kind == Filler ==> !SkipsBand(inputs[i - 1], inputs[i])
  }

  lemma FillerKeepsBand(plan: Plan, log: Log, replies: nat -> Reply, maxTurns: nat, longest: nat, i: nat)
    requires longest <= 16160 && Planned(log, plan, replies, maxTurns) && Grows(plan, log, longest)
    requires 4 <= i < |log.inputs| && log.inputs[i].kind == Filler
    ensures !SkipsBand(log.inputs[i - 1], log.inputs[i])
  {
    FillerTarget(log, plan, replies, maxTurns, i);
    hide Planned;
    assert GrowsAt(plan, log, i);
    var s := log.inputs[i - 1].session.value;
    var t := FillerTurn(s.window.value, s.approximate, log.targets[i], plan.header, plan.source(i - 4), log.inputs[i].answerTokens);
    BandKeptIff(longest);
    if !PastTrigger(s.approximate, t.Budget()) {
      assert t.Planned(longest);
      SwapGrows(log.inputs[i].session.value.approximate, s.approximate + FillerTokens(t.source, t.header, t.target) + t.answer, t.Budget());
    }
  }

  /** The turn takes the measure past the trigger. */
  ghost predicate Crosses(before: Input, turn: Input) {
    before.session.Some? && turn.session.Some? && Budget(before.session.value).Some? &&
    !PastTrigger(before.session.value.approximate, Budget(before.session.value).value) &&
    PastTrigger(turn.session.value.approximate, Budget(before.session.value).value)
  }

  /** A filler stays below the swap even after the one that crossed the trigger. */
  ghost predicate CrossingKept(inputs: seq<Input>) {
    forall i :: 4 <= i < |inputs| - 1 && TwoFillers(inputs, i) && Crosses(inputs[i - 1], inputs[i]) ==> StaysBelow(inputs[i - 1], inputs[i + 1])
  }

  predicate TwoFillers(inputs: seq<Input>, i: nat)
    requires i + 1 < |inputs|
  {
    inputs[i].kind == Filler && inputs[i + 1].kind == Filler
  }

  ghost predicate StaysBelow(before: Input, turn: Input) {
    before.session.Some? && turn.session.Some? && Budget(before.session.value).Some? &&
    !PastSwap(turn.session.value.approximate, Budget(before.session.value).value)
  }

  lemma CrossingKeepsBand(plan: Plan, log: Log, replies: nat -> Reply, maxTurns: nat, longest: nat, i: nat)
    requires longest <= 6928 && plan.header <= 256 && Planned(log, plan, replies, maxTurns) && Grows(plan, log, longest)
    requires 4 <= i < |log.inputs| - 1 && TwoFillers(log.inputs, i) && Crosses(log.inputs[i - 1], log.inputs[i])
    ensures StaysBelow(log.inputs[i - 1], log.inputs[i + 1])
  {
    hide Planned, FillerTokens;
    FillerTarget(log, plan, replies, maxTurns, i);
    FillerTarget(log, plan, replies, maxTurns, i + 1);
    var first, second := log.inputs[i].session.value, log.inputs[i + 1].session.value;
    assert GrowsAt(plan, log, i) && GrowsAt(plan, log, i + 1);
    var budget, measure := Budget(first).value, log.inputs[i - 1].session.value.approximate;
    var added := FillerTokens(plan.source(i - 4), plan.header, log.targets[i]);
    var more := FillerTokens(plan.source(i - 3), plan.header, log.targets[i + 1]);
    FillerIsBounded(plan.source(i - 4), log.targets[i], plan.header, longest);
    FillerIsBounded(plan.source(i - 3), log.targets[i + 1], plan.header, longest);
    hide Grows, FillerAdds, NextFiller, PastTrigger, PastSwap;
    TwoStepsArithmetic(budget, measure, added, log.inputs[i].answerTokens, log.targets[i], first.approximate, more,
                       log.inputs[i + 1].answerTokens, log.targets[i + 1], plan.header, longest);
    SwapGrows(second.approximate, first.approximate + more + log.inputs[i + 1].answerTokens, budget);
  }

  lemma SwapGrows(less: nat, more: nat, budget: nat)
    requires less <= more && !PastSwap(more, budget)
    ensures !PastSwap(less, budget)
  {
  }

  lemma TwoKeepBand(plan: Plan, log: Log, replies: nat -> Reply, maxTurns: nat, longest: nat)
    requires longest <= 6928 && plan.header <= 256 && Planned(log, plan, replies, maxTurns) && Grows(plan, log, longest)
    ensures CrossingKept(log.inputs)
  {
    hide Crosses, StaysBelow, Grows, Planned;
    forall i | 4 <= i < |log.inputs| - 1 && TwoFillers(log.inputs, i) && Crosses(log.inputs[i - 1], log.inputs[i])
      ensures StaysBelow(log.inputs[i - 1], log.inputs[i + 1])
    {
      CrossingKeepsBand(plan, log, replies, maxTurns, longest, i);
    }
  }

  /** Fillers planned so never skip the band, as long as the measure grows by no more than what is sent and answered. */
  lemma PlannedKeepsBand(plan: Plan, log: Log, replies: nat -> Reply, maxTurns: nat)
    requires Planned(log, plan, replies, maxTurns)
    ensures forall longest: nat :: longest <= 16160 && Grows(plan, log, longest) ==> BandKept(log.inputs)
    ensures plan.header <= 256 ==> forall longest: nat :: longest <= 6928 && Grows(plan, log, longest) ==> CrossingKept(log.inputs)
  {
    hide Planned, Grows, CrossingKept, SkipsBand;
    if plan.header <= 256 {
      forall longest: nat | longest <= 6928 && Grows(plan, log, longest) ensures CrossingKept(log.inputs) {
        TwoKeepBand(plan, log, replies, maxTurns, longest);
      }
    }
    forall longest: nat, i | longest <= 16160 && Grows(plan, log, longest) && 4 <= i < |log.inputs| && log.inputs[i].kind == Filler
      ensures !SkipsBand(log.inputs[i - 1], log.inputs[i])
    {
      FillerKeepsBand(plan, log, replies, maxTurns, longest, i);
    }
  }

  // ---------------------------------------------------------------- late markers

  /** The turn's budget is known, and the chat shows that its summary was applied. */
  predicate Landed(i: Input, marker: Option<Marker>) {
    Share(0, i.session).Some? && marker.Some? && marker.value.outcome == "summary_applied"
  }

  /** A summary that landed, however late, shows in the evidence of the turn that started it, and takes its ratio away. */
  ghost predicate SummariesShow(rounds: seq<Round>, inputs: seq<Input>, ids: seq<string>, markers: string -> Option<Marker>)
    requires |rounds| == |inputs| == |ids|
  {
    forall i :: 0 <= i < |inputs| && Landed(inputs[i], markers(ids[i])) ==> rounds[i].summaryAt.Some? && rounds[i].ratio.None?
  }

  lemma LandedShow(rounds: seq<Round>, inputs: seq<Input>, ids: seq<string>, markers: string -> Option<Marker>)
    requires |rounds| == |inputs| == |ids| && forall i :: 0 <= i < |inputs| ==> rounds[i] == RoundOf(inputs[i])
    requires forall i :: 0 <= i < |inputs| ==> inputs[i].compaction == markers(ids[i])
    ensures SummariesShow(rounds, inputs, ids, markers)
  {
  }

  // ---------------------------------------------------------------- the verdict

  const TRIGGER: real := 0.72

  datatype Band = Band(min: real, max: real)

  /** The first round that satisfies `p`, or the number of rounds. */
  function First(p: Round -> bool, rounds: seq<Round>): (i: nat)
    ensures i <= |rounds| && (i < |rounds| ==> p(rounds[i])) && forall j :: 0 <= j < i ==> !p(rounds[j])
  {
    if rounds == [] || p(rounds[0]) then 0 else 1 + First(p, rounds[1..])
  }

  predicate Summarized(r: Round) {
    r.summaryAt.Some?
  }

  predicate Crossed(r: Round) {
    r.share.Some? && r.share.value > TRIGGER
  }

  predicate InBand(r: Round, band: Band) {
    r.ratio.Some? ==> band.min <= r.ratio.value <= band.max
  }

  /** Why the journey fails, in the order the reasons are checked. */
  function VerdictCode(rounds: seq<Round>, carries: bool, band: Option<Band>): Option<string> {
    var first, crossed := First(Summarized, rounds), First(Crossed, rounds);
    if forall i :: 0 <= i < |rounds| ==> rounds[i].outcome.None? then Some("compaction_not_triggered")
    else if first == |rounds| then Some("summary_not_bought")
    else if rounds[first].summaryAt.value <= TRIGGER then Some("summary_before_trigger")
    else if crossed < |rounds| && crossed < first - 1 then Some("trigger_crossed_without_summary")
    else if rounds[first].kind == Probe && rounds[first].bought != Some(true) then Some("summary_after_probe")
    else if band.Some? && forall i :: 0 <= i < |rounds| ==> rounds[i].ratio.None? then Some("ratio_missing")
    else if band.Some? && exists i :: 0 <= i < |rounds| && !InBand(rounds[i], band.value) then Some("ratio_out_of_range")
    else if carries then None else Some("probe_answer_missing_corrections")
  }

  /** The first summary, at `f`: past the trigger, no later than a turn after the first crossing, and in time for the probe. */
  ghost predicate TimelySummary(rounds: seq<Round>, f: nat) {
    && f < |rounds| && rounds[f].summaryAt.Some? && rounds[f].summaryAt.value > TRIGGER
    && (forall i :: 0 <= i < f ==> rounds[i].summaryAt.None?)
    && (forall i :: 0 <= i < f - 1 ==> !Crossed(rounds[i]))
    && (rounds[f].kind == Probe ==> rounds[f].bought == Some(true))
  }

  ghost predicate RatiosGood(rounds: seq<Round>, band: Band) {
    (exists i :: 0 <= i < |rounds| && rounds[i].ratio.Some?) && forall i :: 0 <= i < |rounds| ==> InBand(rounds[i], band)
  }

  /** The verdict passes exactly for a timely first summary, ratios in the route's band, and a probe answered with both corrections. */
  lemma PassedIff(rounds: seq<Round>, inputs: seq<Input>, carries: bool, band: Option<Band>)
    requires |rounds| == |inputs| && forall i :: 0 <= i < |rounds| ==> rounds[i] == RoundOf(inputs[i])
    ensures VerdictCode(rounds, carries, band) == None <==>
            (exists f: nat :: TimelySummary(rounds, f)) && (band.Some? ==> RatiosGood(rounds, band.value)) && carries
  {
    var first, crossed := First(Summarized, rounds), First(Crossed, rounds);
    if first < |rounds| {
      assert Summarized(rounds[first]) && rounds[first].outcome.Some?;
    }
    if VerdictCode(rounds, carries, band) == None {
      TimelyFirst(rounds);
    }
    if f: nat :| TimelySummary(rounds, f) {
      TimelyIsFirst(rounds, f);
    }
  }

  /** The first summary is that of turn `f`. */
  predicate FirstSummary(rounds: seq<Round>, f: nat) {
    f < |rounds| && rounds[f].summaryAt.Some? && forall i :: 0 <= i < f ==> rounds[i].summaryAt == None
  }

  /** Some turn's own estimate crossed the trigger two turns or more before turn `f`. */
  predicate CrossedBefore(rounds: seq<Round>, f: nat) {
    exists i :: 0 <= i < f - 1 && i < |rounds| && rounds[i].share.Some? && rounds[i].share.value > 0.72
  }

  predicate NoRatio(rounds: seq<Round>) {
    forall i :: 0 <= i < |rounds| ==> rounds[i].ratio == None
  }

  predicate RatioOutside(rounds: seq<Round>, band: Band) {
    exists i :: 0 <= i < |rounds| && rounds[i].ratio.Some? && (rounds[i].ratio.value < band.min || rounds[i].ratio.value > band.max)
  }

  /** Without a summary the verdict says whether any was started. */
  lemma NoSummaryMeans(rounds: seq<Round>, carries: bool, band: Option<Band>)
    requires forall i :: 0 <= i < |rounds| ==> rounds[i].summaryAt == None
    ensures VerdictCode(rounds, carries, band) ==
            Some(if exists i :: 0 <= i < |rounds| && rounds[i].outcome.Some? then "summary_not_bought" else "compaction_not_triggered")
  {
    hide Crossed;
  }

  /** With a first summary, each reason is given exactly for what it says, unless one before it holds. */
  lemma VerdictMeans(rounds: seq<Round>, f: nat, carries: bool, band: Option<Band>)
    requires FirstSummary(rounds, f) && rounds[f].outcome.Some?
    ensures var code := VerdictCode(rounds, carries, band);
            if rounds[f].summaryAt.value <= 0.72 then code == Some("summary_before_trigger")
            else if CrossedBefore(rounds, f) then code == Some("trigger_crossed_without_summary")
            else if rounds[f].kind == Probe && rounds[f].bought != Some(true) then code == Some("summary_after_probe")
            else if band.Some? && NoRatio(rounds) then code == Some("ratio_missing")
            else if band.Some? && RatioOutside(rounds, band.value) then code == Some("ratio_out_of_range")
            else code == if carries then None else Some("probe_answer_missing_corrections")
  {
    SummaryAtFirst(rounds, f);
    EarlyCrossing(rounds, f);
    assert band.Some? ==> (RatioOutside(rounds, band.value) <==> exists i :: 0 <= i < |rounds| && !InBand(rounds[i], band.value));
    hide First, CrossedBefore, RatioOutside, InBand;
  }

  lemma SummaryAtFirst(rounds: seq<Round>, f: nat)
    requires FirstSummary(rounds, f)
    ensures First(Summarized, rounds) == f
  {
    assert Summarized(rounds[f]);
    assert forall i :: 0 <= i < f ==> !Summarized(rounds[i]);
  }

  lemma EarlyCrossing(rounds: seq<Round>, f: nat)
    requires f < |rounds|
    ensures CrossedBefore(rounds, f) <==> First(Crossed, rounds) < |rounds| && First(Crossed, rounds) < f - 1
  {
    var c := First(Crossed, rounds);
    if CrossedBefore(rounds, f) {
      var i :| 0 <= i < f - 1 && i < |rounds| && rounds[i].share.Some? && rounds[i].share.value > 0.72;
      assert Crossed(rounds[i]);
    }
    assert c < |rounds| ==> Crossed(rounds[c]);
  }

  lemma TimelyIsFirst(rounds: seq<Round>, f: nat)
    requires TimelySummary(rounds, f)
    ensures First(Summarized, rounds) == f
    ensures First(Crossed, rounds) == |rounds| || First(Crossed, rounds) >= f - 1
  {
    assert Summarized(rounds[f]);
    assert forall i :: 0 <= i < f ==> !Summarized(rounds[i]);
  }

  lemma TimelyFirst(rounds: seq<Round>)
    requires First(Summarized, rounds) < |rounds| && rounds[First(Summarized, rounds)].summaryAt.value > TRIGGER
    requires var first, crossed := First(Summarized, rounds), First(Crossed, rounds);
             (crossed < |rounds| ==> crossed >= first - 1) && (rounds[first].kind == Probe ==> rounds[first].bought == Some(true))
    ensures TimelySummary(rounds, First(Summarized, rounds))
  {
    var first := First(Summarized, rounds);
    assert forall i :: 0 <= i < first ==> !Summarized(rounds[i]);
  }

  /**
   * A passed journey has its first summary at the first crossing or the turn after it exactly when the summary's own turn,
   * or the one before it, crossed.
   */
  lemma FirstSummaryAtCrossingIff(rounds: seq<Round>, carries: bool, band: Option<Band>)
    requires VerdictCode(rounds, carries, band) == None
    ensures var f, c := First(Summarized, rounds), First(Crossed, rounds);
            c < |rounds| && (f == c || f == c + 1) <==> Crossed(rounds[f]) || (f > 0 && Crossed(rounds[f - 1]))
  {
    PassedOrder(rounds, carries, band);
    hide VerdictCode, Crossed, Summarized;
    var f, c := First(Summarized, rounds), First(Crossed, rounds);
    if c < |rounds| && (f == c || f == c + 1) {
      assert Crossed(rounds[c]);
    }
    if Crossed(rounds[f]) || (f > 0 && Crossed(rounds[f - 1])) {
      assert c <= f;
    }
  }

  lemma PassedOrder(rounds: seq<Round>, carries: bool, band: Option<Band>)
    requires VerdictCode(rounds, carries, band) == None
    ensures var f, c := First(Summarized, rounds), First(Crossed, rounds);
            f < |rounds| && (c < |rounds| ==> c >= f - 1)
  {
    hide First;
  }

  // ---------------------------------------------------------------- a pass without a crossing

  const EXAMPLE_SESSION := Session(200100, Some(402048), 2048, true)

  function ExampleInput(i: nat): Input {
    Input(if i == 0 then Brief else if i <= 2 then Correction else if i == 3 then Rule else if i == 4 then Filler else Probe,
          i + 1, if i == 4 then Some(Marker("summary_applied", 292000)) else None, false, Some(EXAMPLE_SESSION), 100, 0, None,
          Some(false))
  }

  /** Brief, corrections, rule, one filler and the probe: each turn at half the window, the filler's summary started at 73 per cent. */
  function ExampleRun(): seq<Round> {
    seq(6, i requires 0 <= i < 6 => RoundOf(ExampleInput(i)))
  }

  lemma ExampleShares()
    ensures EngineTokens(402048, 2048) == 400000
    ensures Rounded(200000.0 / 400000.0) == 0.5 && Rounded(292000.0 / 400000.0) == 0.73
  {
  }

  lemma ExampleRounds(i: nat)
    requires i < 6
    ensures ExampleRound(ExampleRun(), i)
  {
    ExampleShares();
  }

  /** A whole run can pass although no turn's own estimate ever crossed the trigger: the summary's measure is the engine's. */
  lemma ExamplePassedWithoutCrossing()
    ensures var rounds := ExampleRun();
            && InOrder(rounds, true) && HasSummary(rounds[..5]) && !HasSummary(rounds[..4])
            && VerdictCode(rounds, true, None) == None && forall i :: 0 <= i < |rounds| ==> !Crossed(rounds[i])
  {
    var rounds := ExampleRun();
    forall i | 0 <= i < 6 ensures ExampleRound(rounds, i) {
      ExampleRounds(i);
    }
    assert rounds[4].outcome == Some("summary_applied") && rounds[4].kind == Filler;
    ExampleVerdict(rounds);
  }

  /** Half the window at every turn, and one summary, which started past the trigger. */
  predicate ExampleRound(rounds: seq<Round>, i: nat)
    requires i < |rounds|
  {
    rounds[i].share == Some(0.5) && rounds[i].summaryAt == (if i == 4 then Some(0.73) else None) && KindAt(rounds, i, true)
  }

  lemma ExampleVerdict(rounds: seq<Round>)
    requires |rounds| == 6 && (forall i :: 0 <= i < 6 ==> ExampleRound(rounds, i))
    requires rounds[4].outcome == Some("summary_applied") && rounds[4].kind == Filler
    ensures InOrder(rounds, true) && HasSummary(rounds[..5]) && !HasSummary(rounds[..4])
    ensures VerdictCode(rounds, true, None) == None && forall i :: 0 <= i < 6 ==> !Crossed(rounds[i])
  {
    assert ExampleRound(rounds, 4);
    assert rounds[..5][4].summaryAt.Some?;
    assert Summarized(rounds[4]);
    forall i | 0 <= i < 6 ensures !Crossed(rounds[i]) && (Summarized(rounds[i]) <==> i == 4) && KindAt(rounds, i, true) {
      assert ExampleRound(rounds, i);
    }
    assert forall i :: 0 <= i < 4 ==> rounds[..4][i] == rounds[i] && !Summarized(rounds[i]);
    hide First, KindAt;
    assert First(Summarized, rounds) == 4;
    assert First(Crossed, rounds) == 6;
  }
}
