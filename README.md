# WorldGen web server: the job table and its executor

The WorldGen web server (`web/app.py`) accepts text-to-scene and image-to-scene
generation requests, runs each one in a background thread, and lets clients poll a
job's status and list the generated artifacts. This project models its one piece of
real logic, all in `web/app.py`:

- **The job table** (`jobs`): a dictionary from an eight-character job id to a record
  with `id`, `status`, `message`, `created`, `mode`, `prompt` and `output_file`. It is
  the class `JobTable.Table`. The dictionary is the field `jobs: map<string, Job>`. Its
  insertion order, which `list(jobs.values())` follows, is the field `order`. A ghost
  log `writes` records every field assignment an executor makes.
- **`generate`**: defaults the missing request fields and mints a `queued` record. It
  stores the record under the new id and returns the id and the executor's arguments.
  An id that is already present is overwritten in place, as the dictionary assignment
  does.
- **`run_generation`**: one executor thread, run to completion. Its run is the exact
  sequence of field writes `Jobs.RunTrace(id, outcome)`: `running`, the progress
  messages, and then one terminal state for every outcome the handler
  `except Exception` catches. Either the job is `completed` with
  `output_file = "<id>.ply"`, or it is `failed` with the exception's text. The backend
  is the parameter `outcome`. The method `Table.RunGeneration` makes exactly those
  writes, one assignment at a time.
- **`status` and `list_jobs`**: read-only lookups (`Table.Status`, `Table.ListJobs`).
- **`list_outputs`**: a loop that keeps the listed names ending in `.ply` or `.glb`,
  in listing order (`Outputs.ListOutputs`).

Each executor writes only its own key. Finished runs of different jobs commute
(`JobTable.RunsCommute`), and so do single writes to different keys and a write
beside the insertion of another key (`JobTable.WritesCommute`). On these facts the
model runs one executor at a time to its end. Because a run is
a sequence of writes, the model states two things: the final record, and every record
a concurrent poller could observe part-way through a run.

Files: `wrappers.dfy` (Option), `jobs.dfy` (record, request defaults, the write
sequence of a run and its lemmas), `outputs.dfy` (artifact listing),
`job_table.dfy` (the table class), `scenario.dfy` (two clients that use only the
contracts).

## How the code differs from the documented design

The model follows the code wherever the two differ:

- No request is rejected. A missing `mode` becomes `t2s`, and a missing prompt or
  image path becomes `""`. The design asks for an invalid-request error for an
  unknown mode or an empty input.
- The progress texts are the code's own: "Loading models...",
  "Initializing WorldGen...", "Generating scene...". The final text is
  "Generation complete!".
- `status` becomes `running` before the backend is initialised. An initialisation
  failure therefore passes through `running` on its way to `failed`.
- Ids are the first eight hex digits of a UUID4, so they can collide. A collision
  silently overwrites the older record; no uniqueness is claimed.
- Only `.ply` artifacts are produced. `.glb` is only accepted by the listing.
- The three terminal assignments are not atomic. A poller can see `completed` while
  `output_file` is still `None` (`Jobs.ObservedConsistency`). The same holds for
  `failed` with a stale progress message. The design requires that no such partial
  write be visible. The invariant "`output_file` is set exactly when `completed`"
  holds for every record at rest, and at every intermediate point except that window.

## Model

| member | source | states |
|---|---|---|
| `Jobs.ParseRequest` | web/app.py:55-60 | each request field is taken from the body when present and defaulted otherwise |
| `Jobs.NewJob` | web/app.py:63-71 | the dict literal stored by `generate`, with `prompt` chosen by `mode == 't2s'` |
| `Jobs.ApplyWrite` | web/app.py:18-47 | one executor assignment to `status`, `message` or `output_file` |
| `Jobs.Replay` | web/app.py:18-47 | the record after a sequence of executor assignments made in order |
| `Jobs.RunTrace` | web/app.py:17-47 | the assignments `run_generation` makes, in program order, for each backend outcome |
| `Jobs.BackendInput` | web/app.py:31-34 | the argument handed to `generate_world`: the prompt in `t2s` mode, the image path otherwise; the backend itself is abstract, so it serves only `RecordedPromptIsBackendInput` |
| `Jobs.OutputFileName` | web/app.py:37 | the artifact name `f"{job_id}.ply"` |
| `Jobs.RequestDefaults` | web/app.py:55-60 | a missing field takes its default (`t2s`, `""`, `""`, `False`, `False`) and a present one is kept; every request is accepted |
| `Jobs.NewJobFields` | web/app.py:63-71 | a new record is `queued`, "Job queued", has no `output_file`, keeps id, created time and mode, and its `prompt` is the prompt in `t2s` mode and the image path otherwise; it satisfies the invariant |
| `Jobs.RecordedPromptIsBackendInput` | web/app.py:31-34 | the stored `prompt` field is exactly the input the executor hands to `generate_world` |
| `Jobs.RunTraceAt` | web/app.py:17-47 | the writes of a run position by position: `running` and "Loading models..." always, then each later progress message only if the previous backend step succeeded, then the handler's two writes or the three completion writes |
| `Jobs.RunTraceShape` | web/app.py:17-47 | every run is `running`, status-free progress messages, one terminal status, then status-free writes; on success the last write, and only that one, sets `output_file` |
| `Jobs.StatusWritesOfRun` | web/app.py:18-46 | a run writes exactly two statuses, `running` then its terminal one, so the terminal write is the last status change and `queued` is never written |
| `Jobs.ReplayKeepsIdentity` | web/app.py:18-47 | the executor's writes never change `id`, `created`, `mode` or `prompt` |
| `Jobs.RunResult` | web/app.py:37-47 | on success the record ends `completed` with "Generation complete!" and `<id>.ply`; on any failure it ends `failed` with the error text and `output_file` as before; the fields set at creation are unchanged |
| `Jobs.ObservedStatus` | web/app.py:18-46 | after the first k writes the status is `running` up to the terminal write and the terminal status from then on, so it never returns to `queued` and never leaves a terminal state |
| `Jobs.ObservedOutputFile` | web/app.py:41-43 | `output_file` changes only with the very last write of a successful run |
| `Jobs.RunConsistency` | web/app.py:41-47 | after a run, `output_file` is set exactly when `completed` if and only if the run succeeded or started without an artifact |
| `Jobs.GenerateThenRunConsistent` | web/app.py:41-70 | a record minted by `generate` satisfies the invariant, and so does that record after a run with any backend outcome |
| `Jobs.ObservedConsistency` | web/app.py:41-43 | during a run from a record without an artifact, an observed record violates the invariant exactly in the window after `completed` is written and before `output_file` is |
| `Outputs.EndsWith` | web/app.py:101 | Python's `str.endswith` for one suffix |
| `Outputs.IsOutputName` | web/app.py:101 | `f.endswith(('.ply', '.glb'))` |
| `Outputs.KeepOutputs` | web/app.py:100-101 | the listed names that pass the extension test, in listing order |
| `Outputs.KeepOutputsSingle` | web/app.py:101 | a one-name listing is kept exactly when the name ends in `.ply` or `.glb` |
| `Outputs.KeepOutputsMembers` | web/app.py:100-101 | a name is kept if and only if it is listed and ends in `.ply` or `.glb` |
| `Outputs.KeepOutputsAppend` | web/app.py:100-101 | filtering two pieces of a listing and joining them is filtering the whole listing, so listing order is kept |
| `Outputs.KeepOutputsCount` | web/app.py:100-101 | every artifact name keeps all its occurrences and every other name loses them all |
| `Outputs.ArtifactIsListed` | web/app.py:37-101 | the artifact a successful run records is a name the listing keeps |
| `Outputs.ListOutputs` | web/app.py:95-108 | no directory gives `[]`; otherwise one entry per kept name, in order, with that name's size and modification time |
| `JobTable.ValuesInOrder` | web/app.py:89 | the i-th listed value is the value stored under the i-th key of the insertion order |
| `JobTable.ValuesInOrderCovers` | web/app.py:89 | when the key order lists every key once, the listed values are exactly the stored ones, one per key |
| `JobTable.RunOn` | web/app.py:15-47 | a finished run changes only the record under its own id, to the replay of its writes, and nothing for an unknown id |
| `JobTable.RunsCommute` | web/app.py:73-77 | runs of two different jobs give the same table in either order |
| `JobTable.WritesCommute` | web/app.py:18-63 | assignments to two different keys commute, and an assignment commutes with inserting a record under another key |
| `JobTable.Table.constructor` | web/app.py:13 | the table starts empty |
| `JobTable.Table.Status` | web/app.py:81-85 | the stored record for a known id, and not-found for an unknown one |
| `JobTable.Table.ListJobs` | web/app.py:87-89 | every stored record exactly once, in insertion order, and nothing else |
| `JobTable.Table.Generate` | web/app.py:53-79 | stores `NewJob` under the new id and changes no other key; a new key is appended to the order and an existing key keeps its slot; returns the id and the defaulted arguments |
| `JobTable.Table.Put` | web/app.py:18-19 | one assignment `jobs[id][field] = value`: only that record changes, by that write, and the write is logged |
| `JobTable.Table.Step` | web/app.py:18-43 | the k-th write of a run keeps the record equal to the replay of the first k + 1 writes |
| `JobTable.Table.Fail` | web/app.py:45-47 | the handler writes `failed` and then the error text as the last two writes of the run |
| `JobTable.Table.Execute` | web/app.py:17-47 | the `try` block with its handler makes exactly the writes `RunTrace(id, outcome)` to `jobs[id]`, in order, and touches no other key |
| `JobTable.Table.RunGeneration` | web/app.py:15-47 | the table becomes `RunOn(old table, id, outcome)`, the logged writes are the run's own writes, and the table stays well formed; an id not in the table changes nothing |

## Left out

- Flask routing, `request.json`, `jsonify` and the HTTP status codes: a request is
  the datatype `Request`, and `Table.Status` returns `None` for the 404 reply. A
  present field of the wrong JSON type, a JSON `null` and a body that is not a JSON
  object are not modelled.
- `run_generation`: a `BaseException` that is not an `Exception` (such as `SystemExit`
  or `KeyboardInterrupt` raised while importing `worldgen`) escapes the handler at
  line 45. The thread then dies and the record stays `running` with its last progress
  message. No `Outcome` stands for this path, so every modelled run ends `completed`
  or `failed`.
- `index` and `render_template`: presentation only.
- `download_output` and `send_from_directory`: the file lookup and its path handling
  happen inside Flask and cannot be seen.
- `threading.Thread`: `Table.Generate` does not start the executor. The caller runs
  `Table.RunGeneration` afterwards, to completion. Finished runs of different jobs
  commute (`JobTable.RunsCommute`). Single writes and insertions under other keys
  commute (`JobTable.WritesCommute`). Two executors interleaving on one key after an id
  collision are not modelled. `Jobs.RunConsistency` shows what a failed run leaves on
  a record that already completed.
- `WorldGen`, `torch.cuda.is_available` and `result.save`: the backend is the
  `Outcome` parameter. The device choice, the `use_sharp` and `return_mesh` flags and
  the artifact's bytes only matter inside the backend. The flags appear only in the
  returned `Params`.
- `uuid.uuid4()`: the id is a parameter of `Table.Generate`, required to look like
  eight lower-case hex digits (`Jobs.IsJobId`).
- `datetime.now()`: `created` is an opaque string parameter.
- `os.path.exists` and `os.listdir`: the listing is an `Option` input.
- `os.path.getsize` and `os.path.getmtime`: per-name function parameters. A file that
  vanishes between the listing and these calls raises an error that is not modelled.
- `sys.path` setup and `app.run`: process bootstrapping.
