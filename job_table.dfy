/**
  The global `jobs` dictionary of web/app.py and the operations on it: `generate` inserts a
  record, `run_generation` (the body of one executor thread, run to completion) updates that
  record field by field, `status` and `list_jobs` read it.  Each executor writes only its own
  key, so one executor at a time, run to its end, is the sequential model of the threads.
*/
module JobTable {
  import opened Wrappers
  import opened Jobs

  predicate Distinct<T(==)>(s: seq<T>) {
    forall i, k :: 0 <= i < k < |s| ==> s[i] != s[k]
  }

  lemma {:induction false} DistinctCardinality<T>(s: seq<T>)
    requires Distinct(s)
    ensures |set x | x in s| == |s|
    decreases |s|
  {
    if s != [] {
      var init, last := s[..|s| - 1], s[|s| - 1];
      DistinctCardinality(init);
      assert (set x | x in s) == (set x | x in init) + {last};
      assert last !in (set x | x in init);
    }
  }

  /** The values of `m` under `keys`, in the order of `keys`: what `list(jobs.values())` gives
      when `keys` is the dictionary's insertion order. */
  function ValuesInOrder<K, V>(m: map<K, V>, keys: seq<K>): (r: seq<V>)
    requires forall k :: k in keys ==> k in m
    ensures |r| == |keys|
    ensures forall i :: 0 <= i < |keys| ==> r[i] == m[keys[i]]
    decreases |keys|
  {
    if keys == [] then [] else ValuesInOrder(m, keys[..|keys| - 1]) + [m[keys[|keys| - 1]]]
  }

  /** When `keys` lists every key of `m` exactly once, the values under `keys` are exactly
      the values of `m`, one per key. */
  lemma ValuesInOrderCovers<K, V>(m: map<K, V>, keys: seq<K>)
    requires Distinct(keys) && forall k :: k in keys <==> k in m
    ensures |ValuesInOrder(m, keys)| == |m|
    ensures forall k :: k in m ==> m[k] in ValuesInOrder(m, keys)
    ensures forall v :: v in ValuesInOrder(m, keys) ==> exists k :: k in m && m[k] == v
  {
    var r := ValuesInOrder(m, keys);
    DistinctCardinality(keys);
    assert (set x | x in keys) == m.Keys;
    forall k | k in m
      ensures m[k] in r
    {
      var i :| 0 <= i < |keys| && keys[i] == k;
      assert r[i] == m[k];
    }
    forall v | v in r
      ensures exists k :: k in m && m[k] == v
    {
      var i :| 0 <= i < |r| && r[i] == v;
      assert m[keys[i]] == v;
    }
  }

  /** Tags each write of one run with the key it was made under. */
  function Tagged(id: string, ws: seq<Write>): (r: seq<(string, Write)>)
    ensures |r| == |ws|
    ensures forall i :: 0 <= i < |ws| ==> r[i] == (id, ws[i])
    decreases |ws|
  {
    if ws == [] then [] else Tagged(id, ws[..|ws| - 1]) + [(id, ws[|ws| - 1])]
  }

  /** The table's invariant: `order` lists each key once, and each record's `id` is its key. */
  ghost predicate WellFormed(jobs: map<string, Job>, order: seq<string>) {
    && Distinct(order)
    && (forall k :: k in order <==> k in jobs)
    && (forall k :: k in jobs ==> jobs[k].id == k)
  }

  /** Replacing a record by one with the same id keeps the table well formed. */
  lemma TableUpdate(jobs: map<string, Job>, order: seq<string>, id: string, j: Job)
    requires WellFormed(jobs, order) && id in jobs && j.id == id
    ensures WellFormed(jobs[id := j], order)
  {
  }

  /** The whole table after `run_generation(id, ...)` has run to its end: only the record
      under `id` changes, and an unknown id changes nothing. */
  function RunOn(m: map<string, Job>, id: string, o: Outcome): (r: map<string, Job>)
    ensures r.Keys == m.Keys
    ensures forall k :: k in m && k != id ==> r[k] == m[k]
    ensures id in m ==> r[id] == Replay(m[id], RunTrace(id, o))
  {
    if id in m then m[id := Replay(m[id], RunTrace(id, o))] else m
  }

  /** Executors of different jobs commute: since each writes only its own key, running them
      one after the other in either order gives the same table, which is why the threads can
      be modelled by sequential runs. */
  lemma RunsCommute(m: map<string, Job>, a: string, oa: Outcome, b: string, ob: Outcome)
    requires a != b
    ensures RunOn(RunOn(m, a, oa), b, ob) == RunOn(RunOn(m, b, ob), a, oa)
  {
  }

  /** Single writes of two executors to different keys commute, and so does a write with
      the insertion of a record under another key. */
  lemma WritesCommute(m: map<string, Job>, a: string, wa: Write, b: string, wb: Write, c: string, j: Job)
    requires a != b && a != c && a in m && b in m
    ensures m[a := ApplyWrite(m[a], wa)][b := ApplyWrite(m[b], wb)]
         == m[b := ApplyWrite(m[b], wb)][a := ApplyWrite(m[a], wa)]
    ensures m[a := ApplyWrite(m[a], wa)][c := j] == m[c := j][a := ApplyWrite(m[c := j][a], wa)]
  {
  }

  class Table {
    /** The dictionary: job id to record. */
    var jobs: map<string, Job>
    /** The dictionary's keys in insertion order (the order `jobs.values()` follows). */
    var order: seq<string>
    /** Every field assignment an executor has made, with its key, in the order made. */
    ghost var writes: seq<(string, Write)>

    ghost predicate Valid()
      reads this
    {
      WellFormed(jobs, order)
    }

    /** `jobs = {}` at start-up. */
    constructor ()
      ensures Valid()
      ensures jobs == map[] && order == [] && writes == []
    {
      jobs := map[];
      order := [];
      writes := [];
    }

    /** `GET /status/<job_id>`: the stored record, or `None` for the 404 "Job not found". */
    function Status(id: string): (r: Option<Job>)
      reads this
      requires Valid()
      ensures r.Some? <==> id in jobs
      ensures r.Some? ==> r.value == jobs[id] && r.value.id == id
    {
      if id in jobs then Some(jobs[id]) else None
    }

    /** `GET /jobs`: every stored record exactly once, in insertion order. */
    function ListJobs(): (r: seq<Job>)
      reads this
      requires Valid()
      ensures |r| == |order| == |jobs|
      ensures forall i :: 0 <= i < |r| ==> order[i] in jobs && r[i] == jobs[order[i]]
      ensures forall id :: id in jobs ==> jobs[id] in r
      ensures forall x :: x in r ==> exists id :: id in jobs && jobs[id] == x
    {
      ValuesInOrderCovers(jobs, order);
      ValuesInOrder(jobs, order)
    }

    /** `POST /generate`: `newId` stands for `str(uuid.uuid4())[:8]`.  The record is stored
        under it; an id already in the table is overwritten in place (keeping its slot in the
        insertion order), as the dictionary assignment does.  Returns the id and the arguments
        of the executor thread. */
    method Generate(req: Request, newId: string, created: string) returns (jobId: string, p: Params)
      requires Valid()
      requires IsJobId(newId)
      modifies this
      ensures Valid()
      ensures jobId == newId && p == ParseRequest(req)
      ensures jobs == old(jobs)[newId := NewJob(newId, created, p)]
      ensures order == if newId in old(jobs) then old(order) else old(order) + [newId]
      ensures writes == old(writes)
    {
      p := ParseRequest(req);
      if newId !in jobs {
        order := order + [newId];
      }
      jobs := jobs[newId := NewJob(newId, created, p)];
      jobId := newId;
    }

    /** One assignment `jobs[id][field] = value`. */
    method Put(id: string, w: Write)
      requires id in jobs
      modifies this
      ensures jobs == old(jobs)[id := ApplyWrite(old(jobs)[id], w)]
      ensures order == old(order)
      ensures writes == old(writes) + [(id, w)]
    {
      jobs := jobs[id := ApplyWrite(jobs[id], w)];
      writes := writes + [(id, w)];
    }

    /** `run_generation(job_id, ...)` run to completion, the backend behaving as `outcome`.
        It makes exactly the writes `RunTrace(jobId, outcome)` to `jobs[jobId]` and touches no
        other key.  For an id not in the table the first subscript raises `KeyError`, the
        handler raises it again, and the thread dies having changed nothing. */
    method RunGeneration(jobId: string, outcome: Outcome)
      requires Valid()
      modifies this
      ensures Valid()
      ensures order == old(order)
      ensures jobs == RunOn(old(jobs), jobId, outcome)
      ensures writes == old(writes) + (if jobId in old(jobs) then Tagged(jobId, RunTrace(jobId, outcome)) else [])
    {
      if jobId !in jobs {
        return;
      }
      ghost var start := jobs[jobId];
      Execute(jobId, outcome);
      ReplayKeepsIdentity(start, RunTrace(jobId, outcome));
      TableUpdate(old(jobs), order, jobId, Replay(start, RunTrace(jobId, outcome)));
    }

    /** The `try` block of `run_generation` with its `except` clause, for an id in the table:
        the progress writes the code reaches before the backend fails, then the handler's
        writes; or, when nothing fails, the writes of a completed job. */
    method Execute(jobId: string, outcome: Outcome)
      requires jobId in jobs
      modifies this
      ensures order == old(order)
      ensures jobs == old(jobs)[jobId := Replay(old(jobs)[jobId], RunTrace(jobId, outcome))]
      ensures writes == old(writes) + Tagged(jobId, RunTrace(jobId, outcome))
    {
      ghost var base, logged, start := jobs, writes, jobs[jobId];
      ghost var t := RunTrace(jobId, outcome);
      RunTraceAt(jobId, outcome);
      assert t[..0] == [];
      Step(jobId, base, logged, start, t, 0, SetStatus(Running));
      Step(jobId, base, logged, start, t, 1, SetMessage(LoadingMessage));
      if outcome.LoadFail? {
        Fail(jobId, base, logged, start, t, 2, outcome.error);
        return;
      }
      Step(jobId, base, logged, start, t, 2, SetMessage(InitializingMessage));
      if outcome.InitFail? {
        Fail(jobId, base, logged, start, t, 3, outcome.error);
        return;
      }
      Step(jobId, base, logged, start, t, 3, SetMessage(GeneratingMessage));
      if outcome.GenFail? || outcome.SaveFail? {
        Fail(jobId, base, logged, start, t, 4, outcome.error);
        return;
      }
      Step(jobId, base, logged, start, t, 4, SetStatus(Completed));
      Step(jobId, base, logged, start, t, 5, SetMessage(CompleteMessage));
      Step(jobId, base, logged, start, t, 6, SetOutputFile(OutputFileName(jobId)));
      assert t[..7] == t;
    }

    /** The `except` clause, as the last two writes `t[k]`, `t[k + 1]` of the run `t`:
        `status = 'failed'`, then `message = str(e)`. */
    method Fail(id: string, ghost base: map<string, Job>, ghost logged: seq<(string, Write)>,
                ghost start: Job, ghost t: seq<Write>, ghost k: nat, error: string)
      requires id in base && start == base[id]
      requires k + 2 == |t| && t[k] == SetStatus(Failed) && t[k + 1] == SetMessage(error)
      requires jobs == base[id := Replay(start, t[..k])]
      requires writes == logged + Tagged(id, t[..k])
      modifies this
      ensures jobs == base[id := Replay(start, t)]
      ensures order == old(order)
      ensures writes == logged + Tagged(id, t)
    {
      Step(id, base, logged, start, t, k, SetStatus(Failed));
      Step(id, base, logged, start, t, k + 1, SetMessage(error));
      assert t[..k + 2] == t;
    }

    /** `Put` as the write `t[k]` of the run `t`: `start` is the record under `id` when the
        run began, `base` and `logged` the table and the write log then. */
    method Step(id: string, ghost base: map<string, Job>, ghost logged: seq<(string, Write)>,
                ghost start: Job, ghost t: seq<Write>, ghost k: nat, w: Write)
      requires id in base && start == base[id]
      requires k < |t| && t[k] == w
      requires jobs == base[id := Replay(start, t[..k])]
      requires writes == logged + Tagged(id, t[..k])
      modifies this
      ensures jobs == base[id := Replay(start, t[..k + 1])]
      ensures order == old(order)
      ensures writes == logged + Tagged(id, t[..k + 1])
    {
      assert t[..k + 1][..k] == t[..k];
      Put(id, w);
    }
  }
}
