/**
 * The materialization registry of `session.ts` as a state machine over the
 * steps between awaits: serialized jobs per session, generation swaps, a
 * shutdown at any moment, and member reads that cross refreshes.
 *
 * Generations are numbered; an entry is the record of one generation.
 */
module TeamRegistry {
  import opened Wrappers

  datatype Route = Route(preset: string, model: string)

  datatype Runtime = AgentMember(route: Route) | AnnounceOnly

  /** The validated configuration of one request: the route of each roster role. */
  type Request = map<string, Route>

  datatype Entry = Entry(
    session: string,
    createTime: nat,
    request: Request,
    members: map<string, Runtime>,
    prompts: map<string, string>,      // the complete prompt each agent member of this generation assembles
    disposed: bool)

  /** Where the running materialization of a session waits. */
  datatype Job =
    | Validating(request: Request)
    | TearingDown(request: Request, createTime: nat)
    | Building(request: Request, createTime: nat)
    | RollingBack

  datatype Answer =
    | View(generation: nat, role: string, preset: string, model: string, prompt: string)
    | NotFound
    | Failed

  datatype Reader =
    | Reading(session: string, role: string, attempt: nat, generation: nat, route: Route, torn: bool)
    | Answered(answer: Answer)

  datatype State = State(
    entries: map<nat, Entry>,
    teams: map<string, nat>,
    queued: map<string, seq<Request>>,
    running: map<string, Job>,
    readers: map<nat, Reader>,
    nextGeneration: nat,
    clock: nat)

  const INITIAL := State(map[], map[], map[], map[], map[], 0, 0)

  datatype Step =
    | Call(session: string, request: Request)
    | Start(session: string)
    | ValidateFails(session: string)
    | ValidatePasses(session: string)
    | TeardownDone(session: string)
    | BuildReturns(session: string, projection: map<string, bool>, prompts: map<string, string>)
    | BuildFails(session: string)
    | RollbackDone(session: string)
    | Shutdown
    | ReadStart(reader: nat, session: string, role: string, handleMissing: bool)
    | ReadResume(reader: nat, prompt: Option<string>, handleMissing: bool)
    | Tick

  /** Read attempts of one member read. */
  const MEMBER_READ_ATTEMPTS := 3

  function Queue(s: State, session: string): seq<Request> {
    if session in s.queued then s.queued[session] else []
  }

  /** The live entry of a session: registered and not disposed. */
  function Live(s: State, session: string): Option<nat> {
    if session in s.teams && s.teams[session] in s.entries && !s.entries[s.teams[session]].disposed
    then Some(s.teams[session]) else None
  }

  /** Start tearing down the generations of `gone`: reads inside them may now see torn sections. */
  function Disposed(s: State, gone: set<nat>): State {
    s.(entries := map g | g in s.entries :: if g in gone then s.entries[g].(disposed := true) else s.entries[g],
       readers := map r | r in s.readers ::
                    if s.readers[r].Reading? && s.readers[r].generation in gone then s.readers[r].(torn := true)
                    else s.readers[r])
  }

  /** The member runtimes of a projection (role to "is an agent"), joined to the validated request. */
  function Members(request: Request, projection: map<string, bool>): map<string, Runtime>
    requires forall r :: r in projection && projection[r] ==> r in request
  {
    map r | r in projection :: if projection[r] then AgentMember(request[r]) else AnnounceOnly
  }

  /** Sample the live generation for a read attempt, or settle the read. */
  function Sample(s: State, session: string, role: string, attempt: nat, handleMissing: bool): Reader {
    match Live(s, session)
    case None => Answered(NotFound)
    case Some(g) =>
      if role !in s.entries[g].members || !s.entries[g].members[role].AgentMember? || handleMissing
      then Answered(NotFound)
      else Reading(session, role, attempt, g, s.entries[g].members[role].route, false)
  }

  predicate Enabled(s: State, step: Step) {
    match step
    case Call(_, _) => true
    case Start(session) => session !in s.running && Queue(s, session) != []
    case ValidateFails(session) => session in s.running && s.running[session].Validating?
    case ValidatePasses(session) => session in s.running && s.running[session].Validating?
    case TeardownDone(session) => session in s.running && s.running[session].TearingDown?
    case BuildReturns(session, projection, prompts) =>
      session in s.running && s.running[session].Building? && projection.Keys <= prompts.Keys
    case BuildFails(session) => session in s.running && s.running[session].Building?
    case RollbackDone(session) => session in s.running && s.running[session].RollingBack?
    case Shutdown => true
    case ReadStart(reader, _, _, _) => reader !in s.readers
    case ReadResume(reader, prompt, _) =>
      // An assembly that no teardown crossed renders the generation's own prompt, or rejects.
      && reader in s.readers && s.readers[reader].Reading?
      && var r := s.readers[reader];
         !r.torn && prompt.Some? ==>
           r.generation in s.entries && r.role in s.entries[r.generation].prompts &&
           prompt.value == s.entries[r.generation].prompts[r.role]
    case Tick => true
  }

  function Next(s: State, step: Step): State
    requires Enabled(s, step)
  {
    match step
    case Call(session, request) => s.(queued := s.queued[session := Queue(s, session) + [request]])
    case Start(session) =>
      var queue := Queue(s, session);
      s.(queued := s.queued[session := queue[1..]], running := s.running[session := Validating(queue[0])])
    case ValidateFails(session) => s.(running := s.running - {session})
    case ValidatePasses(session) =>
      var request := s.running[session].request;
      if session in s.teams && s.teams[session] in s.entries then
        var g := s.teams[session];
        Disposed(s, {g}).(teams := s.teams - {session},
                          running := s.running[session := TearingDown(request, s.entries[g].createTime)])
      else s.(running := s.running[session := Building(request, s.clock)])
    case TeardownDone(session) =>
      s.(running := s.running[session := Building(s.running[session].request, s.running[session].createTime)])
    case BuildReturns(session, projection, prompts) =>
      var job := s.running[session];
      if exists r :: r in projection && projection[r] && r !in job.request then
        s.(running := s.running[session := RollingBack])
      else
        var g := s.nextGeneration;
        var entry := Entry(session, job.createTime, job.request, Members(job.request, projection), prompts, false);
        s.(entries := s.entries[g := entry], teams := s.teams[session := g], running := s.running - {session},
           nextGeneration := g + 1)
    case BuildFails(session) => s.(running := s.running[session := RollingBack])
    case RollbackDone(session) => s.(running := s.running - {session})
    case Shutdown => Disposed(s, s.teams.Values).(teams := map[])
    case ReadStart(reader, session, role, handleMissing) =>
      var live := Live(s, session);
      var answer :=
        if live.Some? && role in s.entries[live.value].members && s.entries[live.value].members[role].AnnounceOnly?
        then Answered(View(live.value, role, "", "", ""))
        else Sample(s, session, role, 0, handleMissing);
      s.(readers := s.readers[reader := answer])
    case ReadResume(reader, prompt, handleMissing) =>
      s.(readers := s.readers[reader := Resumed(s, s.readers[reader], prompt, handleMissing)])
    case Tick => s.(clock := s.clock + 1)
  }

  /** The code after the prompt await: answer for the still-live generation, else try again. */
  function Resumed(s: State, r: Reader, prompt: Option<string>, handleMissing: bool): Reader
    requires r.Reading?
  {
    if Live(s, r.session) == Some(r.generation) then
      match prompt
      case None => Answered(Failed)
      case Some(text) => Answered(View(r.generation, r.role, r.route.preset, r.route.model, text))
    else if r.attempt + 1 == MEMBER_READ_ATTEMPTS then Answered(NotFound)
    else Sample(s, r.session, r.role, r.attempt + 1, handleMissing)
  }

  // --------------------------------------------------------------- invariant

  /** Fully built: each agent member runs the route its request configured and can assemble its prompt. */
  ghost predicate EntryBuilt(e: Entry) {
    && (forall r :: r in e.members && e.members[r].AgentMember? ==> r in e.request && e.request[r] == e.members[r].route)
    && e.members.Keys <= e.prompts.Keys
  }

  /** Preset, model and prompt are those of one member of this generation. */
  ghost predicate Serves(e: Entry, role: string, preset: string, model: string, prompt: string) {
    && role in e.members
    && match e.members[role]
       case AgentMember(route) => preset == route.preset && model == route.model && role in e.prompts && prompt == e.prompts[role]
       case AnnounceOnly => preset == "" && model == "" && prompt == ""
  }

  ghost predicate ReaderOk(s: State, r: Reader) {
    match r
    case Reading(session, role, attempt, g, route, torn) =>
      && attempt < MEMBER_READ_ATTEMPTS
      && g in s.entries && s.entries[g].session == session
      && role in s.entries[g].members && s.entries[g].members[role] == AgentMember(route)
      && (torn ==> s.entries[g].disposed)
    case Answered(View(g, role, preset, model, prompt)) =>
      g in s.entries && Serves(s.entries[g], role, preset, model, prompt)
    case Answered(_) => true
  }

  ghost predicate TeamsOk(s: State) {
    forall session :: session in s.teams ==>
      && s.teams[session] in s.entries
      && s.entries[s.teams[session]].session == session
      && !s.entries[s.teams[session]].disposed
  }

  ghost predicate Ok(s: State) {
    && TeamsOk(s)
    && (forall g :: g in s.entries ==> g < s.nextGeneration && EntryBuilt(s.entries[g]))
    && (forall session :: session in s.running && !s.running[session].Validating? ==> session !in s.teams)
    && (forall r :: r in s.readers ==> ReaderOk(s, s.readers[r]))
  }

  /** Entries stay, except that a live one may become disposed. */
  ghost predicate EntriesKept(s: State, t: State) {
    forall g :: g in s.entries ==>
      g in t.entries && t.entries[g] == s.entries[g].(disposed := t.entries[g].disposed) &&
      (s.entries[g].disposed ==> t.entries[g].disposed)
  }

  lemma ReaderKept(s: State, t: State, r: Reader)
    requires ReaderOk(s, r) && EntriesKept(s, t)
    ensures ReaderOk(t, r)
  {
  }

  lemma DisposedOk(s: State, gone: set<nat>, teams: map<string, nat>)
    requires Ok(s) && gone <= s.entries.Keys
    requires forall session :: session in teams ==>
               session in s.teams && teams[session] == s.teams[session] && teams[session] !in gone
    ensures Ok(Disposed(s, gone).(teams := teams))
  {
    var t := Disposed(s, gone).(teams := teams);
    assert EntriesKept(s, t);
    forall r | r in t.readers
      ensures ReaderOk(t, t.readers[r])
    {
      ReaderKept(s, t, s.readers[r]);
    }
  }

  lemma ReadersOk(s: State, t: State)
    requires Ok(s) && EntriesKept(s, t) && t.readers == s.readers
    ensures forall r :: r in t.readers ==> ReaderOk(t, t.readers[r])
  {
    forall r | r in t.readers
      ensures ReaderOk(t, t.readers[r])
    {
      ReaderKept(s, t, s.readers[r]);
    }
  }

  lemma SampleOk(s: State, session: string, role: string, attempt: nat, handleMissing: bool)
    requires Ok(s) && attempt < MEMBER_READ_ATTEMPTS
    ensures ReaderOk(s, Sample(s, session, role, attempt, handleMissing))
  {
  }

  lemma {:induction false} BuildOk(s: State, session: string, projection: map<string, bool>, prompts: map<string, string>)
    requires Ok(s) && Enabled(s, BuildReturns(session, projection, prompts))
    ensures Ok(Next(s, BuildReturns(session, projection, prompts)))
  {
    var job := s.running[session];
    if exists r :: r in projection && projection[r] && r !in job.request {
      JobOk(s, Next(s, BuildReturns(session, projection, prompts)));
    } else {
      var entry := Entry(session, job.createTime, job.request, Members(job.request, projection), prompts, false);
      RegisterOk(s, session, entry);
    }
  }

  /** Registering a built entry under a session that has none. */
  lemma {:induction false} RegisterOk(s: State, session: string, entry: Entry)
    requires Ok(s) && session !in s.teams && EntryBuilt(entry) && entry.session == session && !entry.disposed
    ensures Ok(s.(entries := s.entries[s.nextGeneration := entry], teams := s.teams[session := s.nextGeneration],
                  running := s.running - {session}, nextGeneration := s.nextGeneration + 1))
  {
    var t := s.(entries := s.entries[s.nextGeneration := entry], teams := s.teams[session := s.nextGeneration],
                running := s.running - {session}, nextGeneration := s.nextGeneration + 1);
    assert EntriesKept(s, t);
    ReadersOk(s, t);
  }

  lemma {:induction false} NextOk(s: State, step: Step)
    requires Ok(s) && Enabled(s, step)
    ensures Ok(Next(s, step))
  {
    match step
    case ValidatePasses(session) => SwapOk(s, session);
    case BuildReturns(session, projection, prompts) => BuildOk(s, session, projection, prompts);
    case Shutdown => ShutdownOk(s);
    case ReadStart(_, _, _, _) => ReadStepOk(s, step);
    case ReadResume(_, _, _) => ReadStepOk(s, step);
    case _ => JobOk(s, Next(s, step));
  }

  /** A step that only moves jobs along. */
  lemma JobOk(s: State, t: State)
    requires Ok(s) && t.entries == s.entries && t.teams == s.teams && t.readers == s.readers
    requires t.nextGeneration == s.nextGeneration
    requires forall session :: session in t.running && !t.running[session].Validating? ==> session !in t.teams
    ensures Ok(t)
  {
    ReadersOk(s, t);
  }

  lemma ReadStepOk(s: State, step: Step)
    requires Ok(s) && Enabled(s, step) && (step.ReadStart? || step.ReadResume?)
    ensures Ok(Next(s, step))
  {
    if step.ReadStart? {
      SampleOk(s, step.session, step.role, 0, step.handleMissing);
    } else {
      var r := s.readers[step.reader];
      assert ReaderOk(s, r);
      if r.attempt + 1 < MEMBER_READ_ATTEMPTS {
        SampleOk(s, r.session, r.role, r.attempt + 1, step.handleMissing);
      }
    }
    ReadOk(s, step);
  }

  lemma SwapOk(s: State, session: string)
    requires Ok(s) && Enabled(s, ValidatePasses(session))
    ensures Ok(Next(s, ValidatePasses(session)))
  {
    if session in s.teams {
      assert forall other :: other in s.teams && s.teams[other] == s.teams[session] ==> other == session;
      DisposedOk(s, {s.teams[session]}, s.teams - {session});
      ReadersOk(Disposed(s, {s.teams[session]}).(teams := s.teams - {session}), Next(s, ValidatePasses(session)));
    } else {
      ReadersOk(s, Next(s, ValidatePasses(session)));
    }
  }

  lemma ShutdownOk(s: State)
    requires Ok(s)
    ensures Ok(Next(s, Shutdown))
  {
    forall g | g in s.teams.Values
      ensures g in s.entries
    {
      var session :| session in s.teams && s.teams[session] == g;
    }
    DisposedOk(s, s.teams.Values, map[]);
  }

  lemma ReadOk(s: State, step: Step)
    requires Ok(s) && Enabled(s, step) && (step.ReadStart? || step.ReadResume?)
    requires ReaderOk(s, Next(s, step).readers[step.reader])
    ensures Ok(Next(s, step))
  {
    var t := Next(s, step);
    assert EntriesKept(s, t);
    forall r | r in t.readers
      ensures ReaderOk(t, t.readers[r])
    {
      if r == step.reader {
        ReaderKept(s, t, t.readers[r]);
      } else {
        ReaderKept(s, t, s.readers[r]);
      }
    }
  }

  // -------------------------------------------------------------------- runs

  /** The state after `steps`, or None when one of them cannot be taken where it stands. */
  ghost function Run(steps: seq<Step>): Option<State> {
    if steps == [] then Some(INITIAL)
    else
      match Run(steps[..|steps| - 1])
      case None => None
      case Some(s) => if Enabled(s, steps[|steps| - 1]) then Some(Next(s, steps[|steps| - 1])) else None
  }

  ghost predicate IsRun(steps: seq<Step>) {
    Run(steps).Some?
  }

  ghost function After(steps: seq<Step>): State
    requires IsRun(steps)
  {
    Run(steps).value
  }

  lemma {:induction false} EveryRunOk(steps: seq<Step>)
    requires IsRun(steps)
    ensures Ok(After(steps))
  {
    if steps != [] {
      EveryRunOk(steps[..|steps| - 1]);
      NextOk(After(steps[..|steps| - 1]), steps[|steps| - 1]);
    }
  }

  /**
   * In every run a session has at most one registered entry, which is its own,
   * fully built and undisposed, and no entry serves two sessions.
   */
  lemma RegisteredEntriesAreLive(steps: seq<Step>, session: string)
    requires IsRun(steps) && session in After(steps).teams
    ensures var s := After(steps);
            && Live(s, session) == Some(s.teams[session])
            && EntryBuilt(s.entries[s.teams[session]])
            && forall other :: other in s.teams && s.teams[other] == s.teams[session] ==> other == session
  {
    EveryRunOk(steps);
  }

  /** A failed validation changes no team and no entry; a failed build leaves its session without an entry. */
  lemma FailuresKeepOrClear(steps: seq<Step>, step: Step)
    requires IsRun(steps) && Enabled(After(steps), step)
    ensures step.ValidateFails? ==>
              Next(After(steps), step).teams == After(steps).teams && Next(After(steps), step).entries == After(steps).entries
    ensures step.BuildFails? || step.RollbackDone? ==> step.session !in Next(After(steps), step).teams
  {
    EveryRunOk(steps);
  }

  /** The generations a step takes down: the session's own at a refresh, every registered one at a shutdown. */
  predicate TakesDown(s: State, step: Step, session: string) {
    session in s.teams && (step.Shutdown? || step == ValidatePasses(session))
  }

  /**
   * A refresh takes down the session's own generation and no other; a shutdown
   * takes down all; and no other step disposes of a generation or unregisters it.
   */
  lemma {:induction false} TakenDown(steps: seq<Step>, step: Step, session: string)
    requires IsRun(steps) && Enabled(After(steps), step) && session in After(steps).teams
    ensures var s, t := After(steps), Next(After(steps), step);
            var g := s.teams[session];
            && g in s.entries && g in t.entries
            && (TakesDown(s, step, session) ==> session !in t.teams && t.entries[g].disposed)
            && (!TakesDown(s, step, session) ==>
                  session in t.teams && t.teams[session] == g && !t.entries[g].disposed)
  {
    EveryRunOk(steps);
    var s := After(steps);
    assert forall other :: other in s.teams && s.teams[other] == s.teams[session] ==> other == session;
    if step.Shutdown? {
      assert s.teams[session] in s.teams.Values;
    }
  }

  /** The create time a session's team carries through a refresh: the entry's, or the one its job took over. */
  function Carried(s: State, session: string): Option<nat> {
    if session in s.teams && s.teams[session] in s.entries then Some(s.entries[s.teams[session]].createTime)
    else if session in s.running && (s.running[session].TearingDown? || s.running[session].Building?)
    then Some(s.running[session].createTime)
    else None
  }

  /** The step takes the session's team away without a successor. */
  predicate Drops(s: State, step: Step, session: string)
    requires Enabled(s, step)
  {
    || step.Shutdown?
    || (step.BuildFails? && step.session == session)
    || (step.BuildReturns? && step.session == session && session in s.running && Next(s, step).running.Keys >= {session})
  }

  lemma {:induction false} CarriedStep(s: State, step: Step, session: string)
    requires Ok(s) && Enabled(s, step) && Carried(s, session).Some? && !Drops(s, step, session)
    ensures Carried(Next(s, step), session) == Carried(s, session)
  {
  }

  /**
   * createTime survives: whatever happens from the moment a session is
   * registered, as long as no shutdown and no failed build of that session
   * intervenes, a registered entry carries the same create time.
   */
  lemma {:induction false} CreateTimeSurvives(steps: seq<Step>, n: nat, session: string)
    requires IsRun(steps) && n <= |steps| && IsRun(steps[..n])
    requires Carried(After(steps[..n]), session).Some?
    requires forall k :: n <= k < |steps| ==> IsRun(steps[..k]) && Enabled(After(steps[..k]), steps[k]) &&
                                              !Drops(After(steps[..k]), steps[k], session)
    ensures Carried(After(steps), session) == Carried(After(steps[..n]), session)
    decreases |steps|
  {
    if n == |steps| {
      assert steps[..n] == steps;
    } else {
      var init := steps[..|steps| - 1];
      assert init[..n] == steps[..n];
      assert forall k :: n <= k < |init| ==> init[..k] == steps[..k] && init[k] == steps[k];
      CreateTimeSurvives(init, n, session);
      EveryRunOk(init);
      CarriedStep(After(init), steps[|steps| - 1], session);
    }
  }

  /**
   * A member read that answers with a view answers for the generation live at
   * that moment, with preset, model and prompt of that one generation, at its
   * first, second or third attempt.
   */
  lemma MemberReadIsOneGeneration(steps: seq<Step>, reader: nat, prompt: Option<string>, handleMissing: bool)
    requires IsRun(steps) && Enabled(After(steps), ReadResume(reader, prompt, handleMissing))
    ensures var s, t := After(steps), Next(After(steps), ReadResume(reader, prompt, handleMissing));
            var r := s.readers[reader];
            && r.attempt < MEMBER_READ_ATTEMPTS
            && (t.readers[reader].Reading? ==> t.readers[reader].attempt == r.attempt + 1)
            && (t.readers[reader].Answered? && t.readers[reader].answer.View? ==>
                  var v := t.readers[reader].answer;
                  && Live(t, r.session) == Some(v.generation) && v.role == r.role
                  && Serves(t.entries[v.generation], v.role, v.preset, v.model, v.prompt))
  {
    EveryRunOk(steps);
    var s := After(steps);
    assert ReaderOk(s, s.readers[reader]);
  }

  /** The generation a read attempt samples: the live one, if the role is an agent of it whose handle is there. */
  function Sampled(s: State, session: string, role: string, handleMissing: bool): Option<nat> {
    match Live(s, session)
    case None => None
    case Some(g) =>
      if role in s.entries[g].members && s.entries[g].members[role].AgentMember? && !handleMissing then Some(g) else None
  }

  /** How a member read begins: an announce-only member is answered at once, an agent's prompt is awaited. */
  lemma ReadBegins(steps: seq<Step>, reader: nat, session: string, role: string, handleMissing: bool)
    requires IsRun(steps) && Enabled(After(steps), ReadStart(reader, session, role, handleMissing))
    ensures var s, t := After(steps), Next(After(steps), ReadStart(reader, session, role, handleMissing));
            var live, sampled := Live(s, session), Sampled(s, session, role, handleMissing);
            t.readers[reader] ==
            if live.Some? && role in s.entries[live.value].members && s.entries[live.value].members[role] == AnnounceOnly
            then Answered(View(live.value, role, "", "", ""))
            else if sampled.None? then Answered(NotFound)
            else Reading(session, role, 0, sampled.value, s.entries[sampled.value].members[role].route, false)
  {
  }

  /**
   * How an awaited read goes on: a read whose generation is still live is answered
   * with its preset, its model and the prompt, or fails with it; any other samples
   * anew, and gives up after its third attempt.
   */
  lemma ReadGoesOn(steps: seq<Step>, reader: nat, prompt: Option<string>, handleMissing: bool)
    requires IsRun(steps) && Enabled(After(steps), ReadResume(reader, prompt, handleMissing))
    ensures var s, t := After(steps), Next(After(steps), ReadResume(reader, prompt, handleMissing));
            var r := s.readers[reader];
            var sampled := Sampled(s, r.session, r.role, handleMissing);
            t.readers[reader] ==
            if Live(s, r.session) == Some(r.generation) then
              Answered(if prompt.Some? then View(r.generation, r.role, r.route.preset, r.route.model, prompt.value)
                       else Failed)
            else if r.attempt == 2 || sampled.None? then Answered(NotFound)
            else Reading(r.session, r.role, r.attempt + 1, sampled.value,
                         s.entries[sampled.value].members[r.role].route, false)
  {
    EveryRunOk(steps);
    assert ReaderOk(After(steps), After(steps).readers[reader]);
  }
}
