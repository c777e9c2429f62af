/**
  A job record of the WorldGen web server and the field writes its background executor
  performs on it (web/app.py).  The executor's run is described as the exact sequence of
  field writes it makes, so that both its final record and every record a concurrent poller
  could observe in between are functions of that sequence.
*/
module Jobs {
  import opened Wrappers

  /** The four values of a record's `status` field (the strings "queued", "running",
      "completed" and "failed"). */
  datatype Status = Queued | Running | Completed | Failed {

    predicate IsTerminal() {
      this == Completed || this == Failed
    }

  }

  /** One entry of the `jobs` table: the fields `id`, `status`, `message`, `created`, `mode`,
      `prompt` and `output_file` (where `None` stands for Python's `None`). */
  datatype Job = Job(
    id: string,
    status: Status,
    message: string,
    created: string,
    mode: string,
    prompt: string,
    outputFile: Option<string>)

  const TextToScene: string := "t2s"
  const QueuedMessage: string := "Job queued"
  const LoadingMessage: string := "Loading models..."
  const InitializingMessage: string := "Initializing WorldGen..."
  const GeneratingMessage: string := "Generating scene..."
  const CompleteMessage: string := "Generation complete!"
  const ArtifactExtension: string := ".ply"

  /** The JSON body of a `POST /generate` request, field by field; `None` is a missing key. */
  datatype Request = Request(
    mode: Option<string>,
    prompt: Option<string>,
    imagePath: Option<string>,
    useSharp: Option<bool>,
    returnMesh: Option<bool>)

  /** The values `generate` works with once the request's missing keys are defaulted;
      they are also the arguments handed to the executor thread. */
  datatype Params = Params(mode: string, prompt: string, imagePath: string, useSharp: bool, returnMesh: bool)

  /** What the generation backend does for one run: the import of the backend and the device
      probe fail, the backend's constructor fails, generation fails, saving the result fails,
      or everything succeeds.  The failures carry the exception's text.  Only exceptions the
      handler `except Exception` catches are represented. */
  datatype Outcome =
    | LoadFail(error: string)
    | InitFail(error: string)
    | GenFail(error: string)
    | SaveFail(error: string)
    | Success

  /** One assignment `jobs[job_id][field] = value` made by the executor. */
  datatype Write =
    | SetStatus(status: Status)
    | SetMessage(message: string)
    | SetOutputFile(file: string)

  /** The shape of the ids `generate` mints: the first eight characters of a UUID4 string,
      which are lower-case hexadecimal digits. */
  predicate IsJobId(s: string) {
    |s| == 8 && forall i :: 0 <= i < |s| ==> s[i] in "0123456789abcdef"
  }

  /** `output_file` and `status` agree: a file is recorded exactly when the job completed. */
  predicate Consistent(j: Job) {
    j.outputFile.Some? <==> j.status == Completed
  }

  /** The request fields with their defaults: mode `t2s`, empty prompt and image path, both
      flags off.  Nothing is rejected. */
  function ParseRequest(req: Request): (p: Params) {
    Params(
      req.mode.GetOr(TextToScene),
      req.prompt.GetOr(""),
      req.imagePath.GetOr(""),
      req.useSharp.GetOr(false),
      req.returnMesh.GetOr(false))
  }

  /** The record `generate` stores: the `prompt` field keeps the text prompt in `t2s` mode and
      the image path in every other mode. */
  function NewJob(id: string, created: string, p: Params): Job {
    Job(id, Queued, QueuedMessage, created, p.mode,
        if p.mode == TextToScene then p.prompt else p.imagePath, None)
  }

  /** What the executor hands to the backend's `generate_world`: the prompt in `t2s` mode,
      the image path otherwise. */
  function BackendInput(p: Params): string {
    if p.mode == TextToScene then p.prompt else p.imagePath
  }

  /** The artifact name a successful run records. */
  function OutputFileName(id: string): string {
    id + ArtifactExtension
  }

  function TerminalStatus(o: Outcome): (s: Status)
    ensures s.IsTerminal()
  {
    if o.Success? then Completed else Failed
  }

  function ApplyWrite(j: Job, w: Write): Job {
    match w
    case SetStatus(s) => j.(status := s)
    case SetMessage(m) => j.(message := m)
    case SetOutputFile(f) => j.(outputFile := Some(f))
  }

  /** The record after the writes `ws`, made in order, starting from `j`. */
  function Replay(j: Job, ws: seq<Write>): Job {
    if ws == [] then j else ApplyWrite(Replay(j, ws[..|ws| - 1]), ws[|ws| - 1])
  }

  /** Every write `run_generation(job_id, ...)` makes, in program order, when the backend
      behaves as `o`.  A failure is caught by the single `except` clause, which writes
      `failed` and the exception's text. */
  function RunTrace(id: string, o: Outcome): seq<Write> {
    match o
    case LoadFail(e) =>
      [SetStatus(Running), SetMessage(LoadingMessage),
       SetStatus(Failed), SetMessage(e)]
    case InitFail(e) =>
      [SetStatus(Running), SetMessage(LoadingMessage), SetMessage(InitializingMessage),
       SetStatus(Failed), SetMessage(e)]
    case GenFail(e) =>
      [SetStatus(Running), SetMessage(LoadingMessage), SetMessage(InitializingMessage),
       SetMessage(GeneratingMessage), SetStatus(Failed), SetMessage(e)]
    case SaveFail(e) =>
      [SetStatus(Running), SetMessage(LoadingMessage), SetMessage(InitializingMessage),
       SetMessage(GeneratingMessage), SetStatus(Failed), SetMessage(e)]
    case Success =>
      [SetStatus(Running), SetMessage(LoadingMessage), SetMessage(InitializingMessage),
       SetMessage(GeneratingMessage), SetStatus(Completed), SetMessage(CompleteMessage),
       SetOutputFile(OutputFileName(id))]
  }

  /** `RunTrace` write by write, position by position, in the order the executor's code
      reaches each branch. */
  lemma RunTraceAt(id: string, o: Outcome)
    ensures var t := RunTrace(id, o);
      && |t| >= 4 && t[0] == SetStatus(Running) && t[1] == SetMessage(LoadingMessage)
      && (o.LoadFail? ==> |t| == 4 && t[2] == SetStatus(Failed) && t[3] == SetMessage(o.error))
      && (!o.LoadFail? ==> |t| >= 5 && t[2] == SetMessage(InitializingMessage))
      && (o.InitFail? ==> |t| == 5 && t[3] == SetStatus(Failed) && t[4] == SetMessage(o.error))
      && (!o.LoadFail? && !o.InitFail? ==> |t| >= 6 && t[3] == SetMessage(GeneratingMessage))
      && (o.GenFail? || o.SaveFail? ==> |t| == 6 && t[4] == SetStatus(Failed) && t[5] == SetMessage(o.error))
      && (o.Success? ==> |t| == 7 && t[4] == SetStatus(Completed) && t[5] == SetMessage(CompleteMessage)
                         && t[6] == SetOutputFile(OutputFileName(id)))
  {
  }

  // ----- Structure of a run -------------------------------------------------------------

  /** The statuses written by `ws`, in order. */
  function StatusWrites(ws: seq<Write>): seq<Status> {
    if ws == [] then []
    else StatusWrites(ws[..|ws| - 1]) + (if ws[|ws| - 1].SetStatus? then [ws[|ws| - 1].status] else [])
  }

  predicate StatusFree(ws: seq<Write>) {
    forall i :: 0 <= i < |ws| ==> !ws[i].SetStatus?
  }

  predicate OutputFree(ws: seq<Write>) {
    forall i :: 0 <= i < |ws| ==> !ws[i].SetOutputFile?
  }

  /** The progress messages written while the job is `running`, before its terminal status. */
  function Progress(o: Outcome): seq<Write> {
    match o
    case LoadFail(_) => [SetMessage(LoadingMessage)]
    case InitFail(_) => [SetMessage(LoadingMessage), SetMessage(InitializingMessage)]
    case _ => [SetMessage(LoadingMessage), SetMessage(InitializingMessage), SetMessage(GeneratingMessage)]
  }

  /** The writes that follow the terminal status. */
  function Epilogue(id: string, o: Outcome): seq<Write> {
    if o.Success? then [SetMessage(CompleteMessage), SetOutputFile(OutputFileName(id))]
    else [SetMessage(o.error)]
  }

  /** Position of the terminal status write in `RunTrace(_, o)`. */
  function TerminalIndex(o: Outcome): nat {
    1 + |Progress(o)|
  }

  /** A run is: `running`, then status-free progress messages, then exactly one terminal
      status, then status-free writes. */
  lemma RunTraceShape(id: string, o: Outcome)
    ensures RunTrace(id, o) == [SetStatus(Running)] + Progress(o) + [SetStatus(TerminalStatus(o))] + Epilogue(id, o)
    ensures StatusFree(Progress(o)) && StatusFree(Epilogue(id, o)) && OutputFree(Progress(o))
    ensures o.Success? ==> Epilogue(id, o)[|Epilogue(id, o)| - 1] == SetOutputFile(OutputFileName(id))
    ensures o.Success? ==> OutputFree(Epilogue(id, o)[..|Epilogue(id, o)| - 1])
    ensures !o.Success? ==> OutputFree(Epilogue(id, o))
  {
  }

  // ----- Replaying writes -----------------------------------------------------------------

  lemma {:induction false} ReplayAppend(j: Job, a: seq<Write>, b: seq<Write>)
    ensures Replay(j, a + b) == Replay(Replay(j, a), b)
    decreases |b|
  {
    if b == [] {
      assert a + b == a;
    } else {
      var b' := b[..|b| - 1];
      assert (a + b)[..|a + b| - 1] == a + b';
      ReplayAppend(j, a, b');
    }
  }

  /** Writes never touch the fields fixed at creation. */
  lemma {:induction false} ReplayKeepsIdentity(j: Job, ws: seq<Write>)
    ensures var r := Replay(j, ws);
      r.id == j.id && r.created == j.created && r.mode == j.mode && r.prompt == j.prompt
    decreases |ws|
  {
    if ws != [] {
      ReplayKeepsIdentity(j, ws[..|ws| - 1]);
    }
  }

  lemma {:induction false} ReplayStatusFree(j: Job, ws: seq<Write>)
    requires StatusFree(ws)
    ensures Replay(j, ws).status == j.status
    decreases |ws|
  {
    if ws != [] {
      ReplayStatusFree(j, ws[..|ws| - 1]);
    }
  }

  lemma {:induction false} ReplayOutputFree(j: Job, ws: seq<Write>)
    requires OutputFree(ws)
    ensures Replay(j, ws).outputFile == j.outputFile
    decreases |ws|
  {
    if ws != [] {
      ReplayOutputFree(j, ws[..|ws| - 1]);
    }
  }

  lemma {:induction false} StatusWritesAppend(a: seq<Write>, b: seq<Write>)
    ensures StatusWrites(a + b) == StatusWrites(a) + StatusWrites(b)
    decreases |b|
  {
    if b == [] {
      assert a + b == a;
    } else {
      var b' := b[..|b| - 1];
      assert (a + b)[..|a + b| - 1] == a + b';
      StatusWritesAppend(a, b');
    }
  }

  lemma {:induction false} StatusWritesOfStatusFree(ws: seq<Write>)
    requires StatusFree(ws)
    ensures StatusWrites(ws) == []
    decreases |ws|
  {
    if ws != [] {
      StatusWritesOfStatusFree(ws[..|ws| - 1]);
    }
  }

  // ----- What a run does ------------------------------------------------------------------

  /** A run writes exactly two statuses: `running` first, then its one terminal status, which
      is the last status change; `queued` is never written again. */
  lemma StatusWritesOfRun(id: string, o: Outcome)
    ensures StatusWrites(RunTrace(id, o)) == [Running, TerminalStatus(o)]
  {
    RunTraceShape(id, o);
    var p, e := Progress(o), Epilogue(id, o);
    StatusWritesOfStatusFree(p);
    StatusWritesOfStatusFree(e);
    StatusWritesAppend([SetStatus(Running)] + p + [SetStatus(TerminalStatus(o))], e);
    StatusWritesAppend([SetStatus(Running)] + p, [SetStatus(TerminalStatus(o))]);
    StatusWritesAppend([SetStatus(Running)], p);
    assert StatusWrites([SetStatus(Running)]) == [Running] by {
      assert [SetStatus(Running)][..0] == [];
    }
    assert StatusWrites([SetStatus(TerminalStatus(o))]) == [TerminalStatus(o)] by {
      assert [SetStatus(TerminalStatus(o))][..0] == [];
    }
  }

  /** The record a run leaves behind: on success `completed`, "Generation complete!" and the
      artifact `<id>.ply`; on any failure `failed`, the error text, and `output_file` as it was.
      The fields set at creation are untouched. */
  lemma RunResult(j: Job, id: string, o: Outcome)
    ensures var r := Replay(j, RunTrace(id, o));
      && r.status == TerminalStatus(o)
      && r.message == (if o.Success? then CompleteMessage else o.error)
      && r.outputFile == (if o.Success? then Some(OutputFileName(id)) else j.outputFile)
      && r.id == j.id && r.created == j.created && r.mode == j.mode && r.prompt == j.prompt
  {
    RunTraceShape(id, o);
    var t := RunTrace(id, o);
    var n := |t|;
    ReplayKeepsIdentity(j, t);
    assert t[..n] == t;
    ObservedStatus(j, id, o, n);
    ObservedOutputFile(j, id, o, n);
    assert t[n - 1] == SetMessage(if o.Success? then CompleteMessage else o.error)
      || (o.Success? && t[n - 2] == SetMessage(CompleteMessage));
    if o.Success? {
      assert t[..n - 1][..n - 2] == t[..n - 2];
    }
  }

  /** The status a poller can see after the first `k` writes of a run: `running` until the
      terminal write, the terminal status from then on. */
  lemma ObservedStatus(j: Job, id: string, o: Outcome, k: nat)
    requires 1 <= k <= |RunTrace(id, o)|
    ensures Replay(j, RunTrace(id, o)[..k]).status
      == if k <= TerminalIndex(o) then Running else TerminalStatus(o)
  {
    RunTraceShape(id, o);
    var t, p, e := RunTrace(id, o), Progress(o), Epilogue(id, o);
    var first := Replay(j, [SetStatus(Running)]);
    assert first.status == Running by {
      assert [SetStatus(Running)][..0] == [];
    }
    if k <= TerminalIndex(o) {
      var rest := p[..k - 1];
      assert t[..k] == [SetStatus(Running)] + rest;
      assert StatusFree(rest);
      ReplayAppend(j, [SetStatus(Running)], rest);
      ReplayStatusFree(first, rest);
    } else {
      var head := [SetStatus(Running)] + p + [SetStatus(TerminalStatus(o))];
      var rest := e[..k - |head|];
      assert t[..k] == head + rest;
      assert StatusFree(rest);
      ReplayAppend(j, head, rest);
      ReplayStatusFree(Replay(j, head), rest);
      assert head[..|head| - 1] == [SetStatus(Running)] + p;
    }
  }

  /** The `output_file` a poller can see after the first `k` writes: the artifact appears
      only with the very last write of a successful run. */
  lemma ObservedOutputFile(j: Job, id: string, o: Outcome, k: nat)
    requires k <= |RunTrace(id, o)|
    ensures Replay(j, RunTrace(id, o)[..k]).outputFile
      == if o.Success? && k == |RunTrace(id, o)| then Some(OutputFileName(id)) else j.outputFile
  {
    RunTraceShape(id, o);
    var t := RunTrace(id, o);
    if o.Success? && k == |t| {
      assert t[..k][..k - 1] == t[..k - 1];
      assert OutputFree(t[..k - 1]);
      ReplayOutputFree(j, t[..k - 1]);
    } else {
      assert OutputFree(t[..k]);
      ReplayOutputFree(j, t[..k]);
    }
  }

  // ----- Creation and the output_file/status invariant --------------------------------------

  /** A new record is `queued` with "Job queued" and no artifact; its mode is the requested
      one and its `prompt` field is the prompt in `t2s` mode and the image path otherwise. */
  lemma NewJobFields(id: string, created: string, req: Request)
    ensures var p := ParseRequest(req);
      var j := NewJob(id, created, p);
      && j.id == id && j.created == created
      && j.status == Queued && j.message == QueuedMessage && j.outputFile == None
      && j.mode == req.mode.GetOr(TextToScene)
      && j.prompt == (if j.mode == TextToScene then req.prompt.GetOr("") else req.imagePath.GetOr(""))
      && Consistent(j)
  {
  }

  /** A missing field takes its default and a present one is kept; no request is refused. */
  lemma RequestDefaults(req: Request)
    ensures var p := ParseRequest(req);
      && (req.mode.None? ==> p.mode == TextToScene)
      && (req.prompt.None? ==> p.prompt == "")
      && (req.imagePath.None? ==> p.imagePath == "")
      && (req.useSharp.None? ==> !p.useSharp)
      && (req.returnMesh.None? ==> !p.returnMesh)
      && (req.mode.Some? ==> p.mode == req.mode.value)
      && (req.prompt.Some? ==> p.prompt == req.prompt.value)
      && (req.imagePath.Some? ==> p.imagePath == req.imagePath.value)
      && (req.useSharp.Some? ==> p.useSharp == req.useSharp.value)
      && (req.returnMesh.Some? ==> p.returnMesh == req.returnMesh.value)
  {
  }

  /** The `prompt` field `generate` stores is exactly the input the executor passes to the
      backend for the same request. */
  lemma RecordedPromptIsBackendInput(id: string, created: string, p: Params)
    ensures NewJob(id, created, p).prompt == BackendInput(p)
  {
  }

  /** After a run, `output_file` is set exactly when the status is `completed`, provided the
      run started from a record without an artifact; a failed run leaves an earlier artifact
      in place, and then the invariant is broken. */
  lemma RunConsistency(j: Job, id: string, o: Outcome)
    ensures Consistent(Replay(j, RunTrace(id, o))) <==> (o.Success? || j.outputFile.None?)
  {
    RunResult(j, id, o);
  }

  /** A record minted by `generate` and then run to its end, whatever the backend returns
      or raises as an `Exception`,
      satisfies the invariant. */
  lemma GenerateThenRunConsistent(id: string, created: string, p: Params, o: Outcome)
    ensures Consistent(NewJob(id, created, p))
    ensures Consistent(Replay(NewJob(id, created, p), RunTrace(id, o)))
  {
    RunConsistency(NewJob(id, created, p), id, o);
  }

  /** The records a concurrent poller can observe during a run that started without an
      artifact satisfy the invariant at every point except one window: in a successful run,
      after `status` became `completed` and before `output_file` was assigned. */
  lemma ObservedConsistency(j: Job, id: string, o: Outcome, k: nat)
    requires Consistent(j) && j.outputFile.None?
    requires k <= |RunTrace(id, o)|
    ensures Consistent(Replay(j, RunTrace(id, o)[..k]))
      <==> !(o.Success? && TerminalIndex(o) < k < |RunTrace(id, o)|)
  {
    ObservedOutputFile(j, id, o, k);
    if k == 0 {
      assert RunTrace(id, o)[..0] == [];
    } else {
      ObservedStatus(j, id, o, k);
    }
  }
}
