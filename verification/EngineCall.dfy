/** Calls to one engine process over its pipes: one request line out, one response line back, under
    a lock, with callers that may be cancelled and a process that may die at any moment. */
module EngineCall {
  import opened Wrappers

  const VERSION := 1

  datatype FileRef = FileRef(mode: string, path: string)

  datatype Request = Request(
    version: int, id: string, op: string,
    targetSize: int, targetDuration: int, maxSegments: int,
    input: Option<FileRef>, inputs: seq<FileRef>, output: Option<FileRef>, outputDir: string)

  datatype Response = Response(version: int, id: string, completed: bool, detail: string)

  /** What handling a request comes to in the process; an answer that cannot be printed as JSON
      ends in the handler of main. */
  datatype Outcome = Completed(detail: string) | Failed(reason: string) | Unprintable(reason: string)

  datatype Error = NotStarted | Cancelled | WriteFailed | ReadFailed | IdMismatch | VersionMismatch

  // ----- the two ends of a call -----

  predicate ReadableRef(f: FileRef) {
    f.path != "" && f.mode == "file"
  }

  /** The process can parse and validate the request. */
  predicate WellFormed(req: Request) {
    && req.version == VERSION && req.id != ""
    && (req.input.Some? ==> ReadableRef(req.input.value))
    && (forall i :: 0 <= i < |req.inputs| ==> ReadableRef(req.inputs[i]))
    && (req.output.Some? ==> ReadableRef(req.output.value))
    && (req.op == "ping"
        || (req.op in {"process_internal_simple", "process_segment"} && req.input.Some? && req.output.Some?)
        || (req.op == "split_video" && req.input.Some? && req.outputDir != ""
            && (req.targetSize > 0 || req.targetDuration > 0 || req.maxSegments > 0))
        || (req.op == "assemble_gif" && req.inputs != [] && req.output.Some?))
  }

  /** The response line: one that could not be tied to a request carries no id. */
  function Respond(req: Request, outcome: Outcome): Response {
    if !WellFormed(req) || outcome.Unprintable? then
      Response(VERSION, "", false, if outcome.Completed? then outcome.detail else outcome.reason)
    else match outcome
      case Completed(detail) => Response(VERSION, req.id, true, detail)
      case Failed(reason) => Response(VERSION, req.id, false, reason)
      case Unprintable(reason) => Response(VERSION, "", false, reason)
  }

  /** A request as it is sent: version and id are filled in when missing. */
  function Prepared(req: Request, generated: string): (r: Request)
    ensures r.id == (if req.id != "" then req.id else generated) && r.version == (if req.version != 0 then req.version else 1)
    ensures r.op == req.op && r.input == req.input && r.inputs == req.inputs && r.output == req.output
    ensures r.outputDir == req.outputDir && r.targetSize == req.targetSize
    ensures r.targetDuration == req.targetDuration && r.maxSegments == req.maxSegments
  {
    req.(version := if req.version == 0 then VERSION else req.version, id := if req.id == "" then generated else req.id)
  }

  /** What the caller makes of a response line. */
  function Judge(req: Request, resp: Response, cancelled: bool): Result<Response, Error> {
    if resp.id != req.id then Err(IdMismatch)
    else if resp.version != VERSION then Err(VersionMismatch)
    else if cancelled then Err(Cancelled)
    else Ok(resp)
  }

  /** Where a call on a running engine ends: at the first check of its context, at a process that is
      gone, at one that dies over the request, or with a judged answer. */
  function CallResult(sent: Request, alive: bool, early: bool, late: bool, outcome: Outcome,
                      dies: bool): Result<Response, Error> {
    if early then Err(Cancelled)
    else if !alive then Err(WriteFailed)
    else if dies then Err(ReadFailed)
    else Judge(sent, Respond(sent, outcome), late)
  }

  /** The response is to this request, says completed exactly when it was, and carries what came of it. */
  predicate TellsOutcome(resp: Response, req: Request, outcome: Outcome) {
    && resp.id == req.id && resp.version == 1
    && (resp.completed <==> outcome.Completed?)
    && (outcome.Completed? ==> resp.detail == outcome.detail)
    && (outcome.Failed? ==> resp.detail == outcome.reason)
  }

  /** Judging the process's own answer: the id mismatches exactly when the process could not
      handle or print the request, and the version never does. */
  lemma JudgeAnswer(req: Request, outcome: Outcome, cancelled: bool)
    requires req.id != ""
    ensures var r := Judge(req, Respond(req, outcome), cancelled);
            && (r == Err(IdMismatch) <==> !WellFormed(req) || outcome.Unprintable?)
            && r != Err(VersionMismatch)
            && (r.Ok? <==> WellFormed(req) && !outcome.Unprintable? && !cancelled)
            && (r.Ok? ==> TellsOutcome(r.value, req, outcome))
            && (r == Err(Cancelled) <==> WellFormed(req) && !outcome.Unprintable? && cancelled)
  {
  }

  // ----- the requests workers send -----

  function FileAt(path: string): FileRef {
    FileRef("file", path)
  }

  /** A split request always has some policy: three seconds when nothing else is configured. */
  function SplitRequest(path: string, dir: string, size: int, duration: int, most: int): Request {
    var fallback := size <= 0 && duration <= 0 && most <= 0;
    Request(0, "", "split_video", size, if fallback then 3000 else duration, most, Some(FileAt(path)), [], None, dir)
  }

  function ProcessRequest(input: string, output: string): Request {
    Request(0, "", "process_segment", 0, 0, 0, Some(FileAt(input)), [], Some(FileAt(output)), "")
  }

  function AssembleRequest(inputs: seq<string>, output: string): Request {
    Request(0, "", "assemble_gif", 0, 0, 0, None, seq(|inputs|, i requires 0 <= i < |inputs| => FileAt(inputs[i])),
            Some(FileAt(output)), "")
  }

  /** The process can handle what a worker sends exactly when all its paths are there; with the
      configured or the default split policy, a split never fails for want of one. */
  lemma SentRequestsAreHandled(generated: string, path: string, output: string, inputs: seq<string>, size: int, duration: int, most: int)
    requires generated != ""
    ensures WellFormed(Prepared(SplitRequest(path, output, size, duration, most), generated)) <==> path != "" && output != ""
    ensures WellFormed(Prepared(ProcessRequest(path, output), generated)) <==> path != "" && output != ""
    ensures WellFormed(Prepared(AssembleRequest(inputs, output), generated)) <==>
              inputs != [] && output != "" && forall i :: 0 <= i < |inputs| ==> inputs[i] != ""
  {
    var sent := AssembleRequest(inputs, output);
    assert forall i :: 0 <= i < |inputs| ==> sent.inputs[i].path == inputs[i];
  }

  // ----- interleaved calls -----

  datatype Stage = Waiting | Entered | Sent | Returned(result: Result<Response, Error>)

  datatype Caller = Caller(req: Request, stage: Stage, cancelled: bool)

  /** A line in a pipe and, for the statements below only, whose request it belongs to. */
  datatype Line = Line(caller: nat, req: Request)

  datatype Reply = Reply(line: Line, outcome: Outcome)

  /** `answered` lists every answer any process of this engine ever printed. */
  datatype State = State(
    started: bool, alive: bool, holder: Option<nat>, callers: map<nat, Caller>,
    requests: seq<Line>, working: Option<Line>, responses: seq<Reply>, answered: seq<Reply>)

  datatype Action =
    | Start
    | Stop
    | Arrive(c: nat, req: Request, generated: string)
    | Cancel(c: nat)
    | Lock(c: nat)
    | Write(c: nat)
    | Read(c: nat)
    | ChildReads
    | ChildAnswers(outcome: Outcome)
    | ChildDies

  function Initial(): State {
    State(false, false, None, map[], [], None, [], [])
  }

  predicate InStage(s: State, c: nat, stage: Stage) {
    c in s.callers && s.callers[c].stage == stage
  }

  predicate Enabled(s: State, a: Action) {
    match a
    case Start => s.holder == None
    case Stop => s.holder == None
    case Arrive(c, _, generated) => c !in s.callers && generated != ""
    case Cancel(c) => c in s.callers && !s.callers[c].stage.Returned?
    case Lock(c) => InStage(s, c, Waiting) && s.holder == None
    case Write(c) => InStage(s, c, Entered)
    case Read(c) => InStage(s, c, Sent) && (s.responses != [] || !s.alive)
    case ChildReads => s.alive && s.working == None && s.requests != []
    case ChildAnswers(_) => s.alive && s.working.Some?
    case ChildDies => s.alive
  }

  function Move(s: State, c: nat, stage: Stage): State
    requires c in s.callers
  {
    s.(callers := s.callers[c := s.callers[c].(stage := stage)])
  }

  /** The caller gets a result and the deferred unlock runs. */
  function Return(s: State, c: nat, r: Result<Response, Error>): State
    requires c in s.callers
  {
    Move(s, c, Returned(r)).(holder := None)
  }

  function Next(s: State, a: Action): State
    requires Enabled(s, a)
  {
    match a
    case Start => if s.started then s else s.(started := true, alive := true, requests := [], working := None, responses := [])
    case Stop => if s.started then s.(started := false, alive := false, working := None) else s
    case Arrive(c, req, generated) => s.(callers := s.callers[c := Caller(Prepared(req, generated), Waiting, false)])
    case Cancel(c) => s.(callers := s.callers[c := s.callers[c].(cancelled := true)])
    case Lock(c) =>
      if s.started then Move(s, c, Entered).(holder := Some(c)) else Return(s, c, Err(NotStarted))
    case Write(c) =>
      if s.callers[c].cancelled || !s.alive then
        Return(s, c, CallResult(s.callers[c].req, s.alive, s.callers[c].cancelled, false, Failed(""), false))
      else Move(s, c, Sent).(requests := s.requests + [Line(c, s.callers[c].req)])
    case Read(c) =>
      if s.responses == [] then
        Return(s, c, CallResult(s.callers[c].req, true, false, s.callers[c].cancelled, Failed(""), true))
      else
        var reply := s.responses[0];
        Return(s, c, Judge(s.callers[c].req, Respond(reply.line.req, reply.outcome), s.callers[c].cancelled))
          .(responses := s.responses[1..])
    case ChildReads => s.(working := Some(s.requests[0]), requests := s.requests[1..])
    case ChildAnswers(outcome) =>
      var reply := Reply(s.working.value, outcome);
      s.(working := None, responses := s.responses + [reply], answered := s.answered + [reply])
    case ChildDies => s.(alive := false, working := None)
  }

  // ----- lockstep -----

  /** The line of the caller inside the lock is in exactly one place: with the process, on its way
      there or on its way back; or it died with the process. */
  predicate InFlight(s: State, line: Line) {
    || (s.requests == [line] && s.working == None && s.responses == [])
    || (s.alive && s.requests == [] && s.working == Some(line) && s.responses == [])
    || (s.requests == [] && s.working == None && |s.responses| == 1 && s.responses[0].line == line)
    || (!s.alive && s.requests == [] && s.working == None && s.responses == [])
  }

  /** No response is unread and a live process has nothing to do. */
  predicate Quiet(s: State) {
    s.responses == [] && s.working == None && (s.alive ==> s.requests == [])
  }

  ghost predicate LockOk(s: State) {
    && (s.holder.Some? ==> InStage(s, s.holder.value, Entered) || InStage(s, s.holder.value, Sent))
    && (forall c {:trigger s.callers[c]} :: c in s.callers && (s.callers[c].stage == Entered || s.callers[c].stage == Sent) ==> s.holder == Some(c))
    && (forall c {:trigger s.callers[c]} :: c in s.callers ==> s.callers[c].req.id != "")
  }

  predicate PipesOk(s: State) {
    if s.holder.Some? && InStage(s, s.holder.value, Sent)
    then InFlight(s, Line(s.holder.value, s.callers[s.holder.value].req))
    else Quiet(s)
  }

  /** What has become of the answer `reply`: still unread in the pipe, or judged by the caller
      that sent the request. */
  predicate AnswerOk(s: State, reply: Reply) {
    var c := reply.line.caller;
    && c in s.callers && reply.line.req == s.callers[c].req
    && match s.callers[c].stage
       case Sent => s.responses == [reply]
       case Returned(r) => r == Judge(s.callers[c].req, Respond(s.callers[c].req, reply.outcome), s.callers[c].cancelled)
       case _ => false
  }

  ghost predicate AnswersOk(s: State) {
    && (forall i {:trigger s.answered[i]} :: 0 <= i < |s.answered| ==> AnswerOk(s, s.answered[i]))
    && (forall i, k :: 0 <= i < k < |s.answered| ==> s.answered[i].line.caller != s.answered[k].line.caller)
    && (s.responses != [] ==> s.responses[0] in s.answered)
  }

  predicate Answered(s: State, c: nat) {
    exists i :: 0 <= i < |s.answered| && s.answered[i].line.caller == c
  }

  /** A call that ended without an answer ended in one of these errors. */
  ghost predicate UnansweredOk(s: State) {
    forall c {:trigger Answered(s, c)} :: c in s.callers && s.callers[c].stage.Returned? && !Answered(s, c) ==>
      && s.callers[c].stage.result in {Err(NotStarted), Err(Cancelled), Err(WriteFailed), Err(ReadFailed)}
      && (s.callers[c].stage.result == Err(Cancelled) ==> s.callers[c].cancelled)
  }

  ghost predicate Inv(s: State) {
    LockOk(s) && PipesOk(s) && AnswersOk(s) && UnansweredOk(s)
  }

  lemma LockNext(s: State, a: Action)
    requires LockOk(s) && Enabled(s, a)
    ensures LockOk(Next(s, a))
  {
    match a
    case Lock(c) => LockTaken(s, c);
    case Write(c) => LockUsed(s, a, c);
    case Read(c) => LockUsed(s, a, c);
    case _ =>
  }

  lemma LockTaken(s: State, c: nat)
    requires LockOk(s) && Enabled(s, Lock(c))
    ensures LockOk(Next(s, Lock(c)))
  {
  }

  lemma LockUsed(s: State, a: Action, c: nat)
    requires LockOk(s) && Enabled(s, a) && (a == Write(c) || a == Read(c))
    ensures LockOk(Next(s, a))
  {
  }

  lemma PipesNext(s: State, a: Action)
    requires LockOk(s) && PipesOk(s) && Enabled(s, a)
    ensures PipesOk(Next(s, a))
  {
  }

  lemma AnswersNext(s: State, a: Action)
    requires LockOk(s) && PipesOk(s) && AnswersOk(s) && Enabled(s, a)
    ensures AnswersOk(Next(s, a))
  {
    match a
    case Read(c) => ReadAnswers(s, c);
    case ChildAnswers(outcome) => ChildAnswersOk(s, outcome);
    case _ => OtherAnswers(s, a);
  }

  lemma ReadAnswers(s: State, c: nat)
    requires LockOk(s) && PipesOk(s) && AnswersOk(s) && Enabled(s, Read(c))
    ensures AnswersOk(Next(s, Read(c)))
  {
  }

  lemma ChildAnswersOk(s: State, outcome: Outcome)
    requires LockOk(s) && PipesOk(s) && AnswersOk(s) && Enabled(s, ChildAnswers(outcome))
    ensures AnswersOk(Next(s, ChildAnswers(outcome)))
  {
    var s' := Next(s, ChildAnswers(outcome));
    var c := s.working.value.caller;
    assert s.holder == Some(c) && InStage(s, c, Sent) && s.responses == [];
    forall i | 0 <= i < |s.answered| ensures AnswerOk(s', s.answered[i]) && s.answered[i].line.caller != c {
      assert AnswerOk(s, s.answered[i]);
    }
  }

  lemma OtherAnswers(s: State, a: Action)
    requires LockOk(s) && PipesOk(s) && AnswersOk(s) && Enabled(s, a) && !a.Read? && !a.ChildAnswers?
    ensures AnswersOk(Next(s, a))
  {
    var s' := Next(s, a);
    forall i | 0 <= i < |s'.answered| ensures AnswerOk(s', s'.answered[i]) {
      assert AnswerOk(s, s.answered[i]);
    }
  }

  lemma UnansweredNext(s: State, a: Action)
    requires Inv(s) && Enabled(s, a)
    ensures UnansweredOk(Next(s, a))
  {
    var s' := Next(s, a);
    forall c | c in s'.callers && s'.callers[c].stage.Returned? && !Answered(s', c)
      ensures s'.callers[c].stage.result in {Err(NotStarted), Err(Cancelled), Err(WriteFailed), Err(ReadFailed)}
      ensures s'.callers[c].stage.result == Err(Cancelled) ==> s'.callers[c].cancelled
    {
      assert !Answered(s, c) by {
        if i :| 0 <= i < |s.answered| && s.answered[i].line.caller == c {
          assert s'.answered[i].line.caller == c;
        }
      }
    }
  }

  ghost predicate Run(states: seq<State>, acts: seq<Action>) {
    && |states| == |acts| + 1 && states[0] == Initial()
    && forall i: nat {:trigger Moves(states, acts, i)} :: i < |acts| ==> Moves(states, acts, i)
  }

  ghost predicate Moves(states: seq<State>, acts: seq<Action>, i: nat)
    requires |states| == |acts| + 1 && i < |acts|
  {
    Enabled(states[i], acts[i]) && states[i + 1] == Next(states[i], acts[i])
  }

  lemma {:induction false} Reachable(states: seq<State>, acts: seq<Action>, n: nat)
    requires Run(states, acts) && n <= |acts|
    ensures Inv(states[n])
    decreases n
  {
    if n > 0 {
      Reachable(states, acts, n - 1);
      assert Moves(states, acts, n - 1);
      LockNext(states[n - 1], acts[n - 1]);
      PipesNext(states[n - 1], acts[n - 1]);
      AnswersNext(states[n - 1], acts[n - 1]);
      UnansweredNext(states[n - 1], acts[n - 1]);
    }
  }

  /** Whatever was cancelled, died or was restarted on the way: between calls no response is
      unread, and a live process has no request left. */
  lemma QuietBetweenCalls(states: seq<State>, acts: seq<Action>, n: nat)
    requires Run(states, acts) && n <= |acts| && states[n].holder == None
    ensures Quiet(states[n])
  {
    Reachable(states, acts, n);
  }

  /** A response handed to a caller is the one answer some process gave to that caller's own
      request, with its id. */
  lemma OwnAnswer(states: seq<State>, acts: seq<Action>, n: nat, c: nat, resp: Response)
    requires Run(states, acts) && n <= |acts| && InStage(states[n], c, Returned(Ok(resp)))
    ensures exists i :: && 0 <= i < |states[n].answered|
                        && states[n].answered[i].line == Line(c, states[n].callers[c].req)
                        && TellsOutcome(resp, states[n].callers[c].req, states[n].answered[i].outcome)
                        && forall k :: 0 <= k < |states[n].answered| && states[n].answered[k].line.caller == c ==> k == i
    ensures resp.id == states[n].callers[c].req.id && WellFormed(states[n].callers[c].req)
  {
    Reachable(states, acts, n);
    var s := states[n];
    assert Answered(s, c);
    var i :| 0 <= i < |s.answered| && s.answered[i].line.caller == c;
    assert AnswerOk(s, s.answered[i]);
    JudgeAnswer(s.callers[c].req, s.answered[i].outcome, s.callers[c].cancelled);
  }

  /** The id check catches no lost or swapped line: it fails only on the caller's own answer, when
      the process could not handle or print it. The version check never fails. */
  lemma MismatchMeans(states: seq<State>, acts: seq<Action>, n: nat, c: nat)
    requires Run(states, acts) && n <= |acts| && c in states[n].callers && states[n].callers[c].stage.Returned?
    ensures states[n].callers[c].stage.result != Err(VersionMismatch)
    ensures states[n].callers[c].stage.result == Err(IdMismatch) <==>
              exists i :: && 0 <= i < |states[n].answered| && states[n].answered[i].line.caller == c
                          && (!WellFormed(states[n].callers[c].req) || states[n].answered[i].outcome.Unprintable?)
  {
    Reachable(states, acts, n);
    var s := states[n];
    if Answered(s, c) {
      var i :| 0 <= i < |s.answered| && s.answered[i].line.caller == c;
      assert AnswerOk(s, s.answered[i]);
      JudgeAnswer(s.callers[c].req, s.answered[i].outcome, s.callers[c].cancelled);
    }
  }

  /** A call that sent its request can always be moved on, by the process or by reading. */
  lemma NeverStuck(states: seq<State>, acts: seq<Action>, n: nat, c: nat, outcome: Outcome)
    requires Run(states, acts) && n <= |acts| && InStage(states[n], c, Sent)
    ensures Enabled(states[n], ChildReads) || Enabled(states[n], ChildAnswers(outcome)) || Enabled(states[n], Read(c))
  {
    Reachable(states, acts, n);
    var _ := states[n].callers[c];
  }

  // ----- the engine object -----

  /** The process at the other end of the pipes. */
  class Process {
    var alive: bool
    var requests: seq<Request>
    var responses: seq<Response>

    predicate Idle()
      reads this
    {
      responses == [] && (alive ==> requests == [])
    }

    constructor ()
      ensures alive && requests == [] && responses == []
    {
      alive, requests, responses := true, [], [];
    }

    method WriteLine(req: Request) returns (ok: bool)
      modifies this`requests
      ensures ok == alive
      ensures requests == if ok then old(requests) + [req] else old(requests)
    {
      ok := alive;
      if ok {
        requests := requests + [req];
      }
    }

    /** The line loop of main until it waits for input again, or dies before that. */
    method Serve(outcomes: seq<Outcome>, dies: bool)
      requires |outcomes| >= |requests|
      modifies this
      ensures alive == (old(alive) && !dies)
      ensures if alive then requests == [] && responses == old(responses) + Answers(old(requests), outcomes)
              else requests == old(requests) && responses == old(responses)
    {
      if !alive || dies {
        alive := false;
        return;
      }
      var i := 0;
      assert responses + [] == responses;
      while requests != []
        invariant alive && i <= |old(requests)| && requests == old(requests)[i..]
        invariant responses == old(responses) + Answers(old(requests)[..i], outcomes)
        decreases |requests|
      {
        ghost var done := old(requests)[..i];
        assert old(requests)[..i + 1] == done + [requests[0]];
        assert Answers(done + [requests[0]], outcomes) == Answers(done, outcomes) + [Respond(requests[0], outcomes[i])];
        responses := responses + [Respond(requests[0], outcomes[i])];
        requests := requests[1..];
        i := i + 1;
      }
      assert old(requests)[..i] == old(requests);
    }

    method ReadLine() returns (line: Option<Response>)
      requires responses != [] || !alive
      modifies this`responses
      ensures line == if old(responses) == [] then None else Some(old(responses)[0])
      ensures responses == if old(responses) == [] then [] else old(responses)[1..]
    {
      if responses == [] {
        return None;
      }
      line := Some(responses[0]);
      responses := responses[1..];
    }
  }

  function Answers(reqs: seq<Request>, outcomes: seq<Outcome>): (rs: seq<Response>)
    requires |outcomes| >= |reqs|
    ensures |rs| == |reqs|
  {
    seq(|reqs|, i requires 0 <= i < |reqs| => Respond(reqs[i], outcomes[i]))
  }

  class Engine {
    var process: Process?

    ghost predicate Valid()
      reads this, process
    {
      process != null ==> process.Idle()
    }

    constructor ()
      ensures process == null
    {
      process := null;
    }

    /** `comesUp` says whether pipes and process can be created. */
    method Start(comesUp: bool) returns (ok: bool)
      requires Valid()
      modifies this
      ensures Valid() && ok == (process != null) && ok == (old(process) != null || comesUp)
      ensures old(process) != null ==> process == old(process)
      ensures old(process) == null && ok ==> fresh(process) && process.alive
    {
      if process != null {
        return true;
      }
      if !comesUp {
        return false;
      }
      process := new Process();
      return true;
    }

    /** `early` and `late` say whether the caller's context is done at the first and at the last
        check; `outcome` and `dies` are the process's part. Whatever they are, the pipes end up
        as idle as they were, so the next call starts afresh. */
    method Call(req: Request, generated: string, early: bool, late: bool, outcome: Outcome,
                dies: bool) returns (r: Result<Response, Error>)
      requires Valid() && generated != ""
      modifies process
      ensures Valid()
      ensures process == null ==> r == Err(NotStarted)
      ensures process != null ==>
                && process.alive == old(process.alive && (early || !dies))
                && r == CallResult(Prepared(req, generated), old(process.alive), early, late, outcome, dies)
                && (early ==> r == Err(Cancelled))
                && (!early && old(!process.alive) ==> r == Err(WriteFailed))
                && (!early && old(process.alive) && dies ==> r == Err(ReadFailed))
                && (!early && old(process.alive) && !dies ==>
                      var sent := Prepared(req, generated);
                      && (r == Err(IdMismatch) <==> !WellFormed(sent) || outcome.Unprintable?)
                      && (r == Err(Cancelled) <==> WellFormed(sent) && !outcome.Unprintable? && late)
                      && (r.Ok? <==> WellFormed(sent) && !outcome.Unprintable? && !late))
                && (r.Ok? ==> TellsOutcome(r.value, Prepared(req, generated), outcome))
    {
      if process == null {
        return Err(NotStarted);
      }
      var sent := Prepared(req, generated);
      if early {
        return Err(Cancelled);
      }
      var ok := process.WriteLine(sent);
      if !ok {
        return Err(WriteFailed);
      }
      process.Serve([outcome], dies);
      var line := process.ReadLine();
      if line.None? {
        return Err(ReadFailed);
      }
      JudgeAnswer(sent, outcome, late);
      if line.value.id != sent.id {
        return Err(IdMismatch);
      }
      if line.value.version != VERSION {
        return Err(VersionMismatch);
      }
      if late {
        return Err(Cancelled);
      }
      return Ok(line.value);
    }
  }
}
