/**
 The stored manual schedules against the live jobs of the scheduler, as a
 transition system: creation with its rollback, removal, reload, firing.
 */
module ScheduleStore {
  import opened Bytes
  import opened Schedule

  datatype Job = Job(id: string, name: string, single: bool)

  datatype State = State(jobs: seq<Job>, file: File)

  const PREFIX := "manual:"

  function JobId(sid: string): string {
    PREFIX + sid
  }

  /** The job that load_manual_schedule registers. */
  function ManualJob(m: Manual): Job {
    Job(JobId(m.id), "手动定时 " + m.id, m.singleTime)
  }

  // -------------------------------------------------------------- job registry

  function Others(jobs: seq<Job>, id: string): seq<Job> {
    if jobs == [] then [] else (if jobs[0].id == id then [] else [jobs[0]]) + Others(jobs[1..], id)
  }

  /** APScheduler's remove_job: the first job with the id goes. */
  function RemoveId(jobs: seq<Job>, id: string): seq<Job> {
    if jobs == [] then [] else if jobs[0].id == id then jobs[1..] else [jobs[0]] + RemoveId(jobs[1..], id)
  }

  /** The id of the first job whose id or name is `key`. */
  function Match(jobs: seq<Job>, key: string): Result<string, ()> {
    if jobs == [] then Err(())
    else if jobs[0].id == key || jobs[0].name == key then Ok(jobs[0].id)
    else Match(jobs[1..], key)
  }

  /** remove_job. */
  function RemoveJob(jobs: seq<Job>, key: string): seq<Job> {
    match Match(jobs, key)
    case Ok(id) => RemoveId(jobs, id)
    case Err(_) => jobs
  }

  /** ScheduleModule.register: whatever had the id is removed, then the job is added. */
  function Register(jobs: seq<Job>, job: Job): seq<Job> {
    Others(jobs, job.id) + [job]
  }

  predicate HasJob(jobs: seq<Job>, id: string) {
    exists i :: 0 <= i < |jobs| && jobs[i].id == id
  }

  /** The manual ids with a live job. */
  ghost predicate Live(jobs: seq<Job>, sid: string) {
    HasJob(jobs, JobId(sid))
  }

  predicate Stored(ms: seq<Manual>, sid: string) {
    exists i :: 0 <= i < |ms| && ms[i].id == sid
  }

  /** Ids are unique, and no job is named like the id of a manual job. */
  ghost predicate JobsOk(jobs: seq<Job>) {
    && (forall i, j :: 0 <= i < j < |jobs| ==> jobs[i].id != jobs[j].id)
    && (forall i, sid :: 0 <= i < |jobs| ==> jobs[i].name != JobId(sid))
  }

  lemma {:induction false} OthersHas(jobs: seq<Job>, id: string, x: string)
    ensures HasJob(Others(jobs, id), x) <==> HasJob(jobs, x) && x != id
  {
    if jobs == [] {
    } else {
      OthersHas(jobs[1..], id, x);
      var head := if jobs[0].id == id then [] else [jobs[0]];
      HasSplit(head, Others(jobs[1..], id), x);
      HasSplit([jobs[0]], jobs[1..], x);
      assert jobs == [jobs[0]] + jobs[1..];
    }
  }

  lemma HasSplit(a: seq<Job>, b: seq<Job>, x: string)
    ensures HasJob(a + b, x) <==> HasJob(a, x) || HasJob(b, x)
  {
    if i :| 0 <= i < |a| && a[i].id == x {
      assert (a + b)[i].id == x;
    }
    if i :| 0 <= i < |b| && b[i].id == x {
      assert (a + b)[|a| + i].id == x;
    }
  }

  lemma {:induction false} OthersOk(jobs: seq<Job>, id: string)
    requires JobsOk(jobs)
    ensures JobsOk(Others(jobs, id))
    ensures forall i :: 0 <= i < |Others(jobs, id)| ==> Others(jobs, id)[i].id != id && Others(jobs, id)[i] in jobs
  {
    if jobs == [] {
    } else {
      OthersOk(jobs[1..], id);
    }
  }

  /** With unique ids, removing the first job of an id removes the id. */
  lemma {:induction false} RemoveIdIsOthers(jobs: seq<Job>, id: string)
    requires JobsOk(jobs)
    ensures RemoveId(jobs, id) == Others(jobs, id)
  {
    if jobs == [] {
    } else {
      RemoveIdIsOthers(jobs[1..], id);
      if jobs[0].id == id {
        OthersAbsent(jobs[1..], id);
      }
    }
  }

  lemma {:induction false} OthersAbsent(jobs: seq<Job>, id: string)
    requires !HasJob(jobs, id)
    ensures Others(jobs, id) == jobs
  {
    if jobs == [] {
    } else {
      assert !HasJob(jobs[1..], id);
      assert jobs[0].id != id;
      OthersAbsent(jobs[1..], id);
    }
  }

  /** Removing a manual job by its id never hits another job by its name. */
  lemma {:induction false} RemoveManualJob(jobs: seq<Job>, sid: string)
    requires JobsOk(jobs)
    ensures RemoveJob(jobs, JobId(sid)) == Others(jobs, JobId(sid))
  {
    MatchIsId(jobs, sid);
    if HasJob(jobs, JobId(sid)) {
      RemoveIdIsOthers(jobs, JobId(sid));
    } else {
      OthersAbsent(jobs, JobId(sid));
    }
  }

  lemma {:induction false} MatchIsId(jobs: seq<Job>, sid: string)
    requires JobsOk(jobs)
    ensures Match(jobs, JobId(sid)) == if HasJob(jobs, JobId(sid)) then Ok(JobId(sid)) else Err(())
  {
    if jobs == [] {
    } else {
      MatchIsId(jobs[1..], sid);
      HasSplit([jobs[0]], jobs[1..], JobId(sid));
      assert jobs == [jobs[0]] + jobs[1..];
      assert HasJob([jobs[0]], JobId(sid)) <==> [jobs[0]][0].id == JobId(sid);
    }
  }

  lemma RegisterOk(jobs: seq<Job>, m: Manual, x: string)
    requires JobsOk(jobs)
    ensures JobsOk(Register(jobs, ManualJob(m)))
    ensures HasJob(Register(jobs, ManualJob(m)), x) <==> HasJob(jobs, x) || x == JobId(m.id)
  {
    OthersOk(jobs, JobId(m.id));
    OthersHas(jobs, JobId(m.id), x);
    HasSplit(Others(jobs, JobId(m.id)), [ManualJob(m)], x);
    assert [ManualJob(m)][0].id == JobId(m.id);
    assert ManualJob(m).name[0] != PREFIX[0];
  }

  // ---------------------------------------------------------------- operations

  function Without(ms: seq<Manual>, sid: string): seq<Manual> {
    if ms == [] then [] else (if ms[0].id == sid then [] else [ms[0]]) + Without(ms[1..], sid)
  }

  /** remove_manual_schedule.  `diskOk` tells whether the file can be replaced; the
      flag returned tells whether the call returned True. */
  function Remove(env: Env, s: State, sid: string, diskOk: bool): (State, bool) {
    var read := Read(env, s.file);
    if read.Err? then (s, false) else
    var rest := Without(read.value, sid);
    if |rest| == |read.value| || !diskOk then (s, false) else
    (State(RemoveJob(s.jobs, JobId(sid)), Items(ItemsOf(rest))), true)
  }

  /** load_manual_schedule on a normalised item: register removes the old job first,
      and add_job refuses a trigger it cannot parse. */
  function LoadOne(env: Env, jobs: seq<Job>, m: Manual): (seq<Job>, bool) {
    if env.fires(m.time) then (Register(jobs, ManualJob(m)), true) else (Others(jobs, JobId(m.id)), false)
  }

  /** create_manual_schedule: the job first, then the file, and back again when
      the file cannot be read or replaced. */
  function Create(env: Env, s: State, item: Json, diskOk: bool): (State, bool) {
    var normal := Normalize(env, item);
    if normal.Err? then (s, false) else
    var m := normal.value;
    var (jobs, loaded) := LoadOne(env, s.jobs, m);
    if !loaded then (s.(jobs := jobs), false) else
    var read := Read(env, s.file);
    if read.Err? || !diskOk then (s.(jobs := RemoveJob(jobs, JobId(m.id))), false) else
    (State(jobs, Items(ItemsOf(read.value + [m]))), true)
  }

  /** The loop of reload_manual_scheduler. */
  function Load(env: Env, jobs: seq<Job>, ms: seq<Manual>): (seq<Job>, bool)
    decreases |ms|
  {
    if ms == [] then (jobs, true)
    else if HasJob(jobs, JobId(ms[0].id)) then Load(env, jobs, ms[1..])
    else
      var (more, loaded) := LoadOne(env, jobs, ms[0]);
      if loaded then Load(env, more, ms[1..]) else (more, false)
  }

  /** reload_manual_scheduler. */
  function Reload(env: Env, s: State): (State, bool) {
    var read := Read(env, s.file);
    if read.Err? then (s, false) else
    var (jobs, done) := Load(env, s.jobs, read.value);
    (s.(jobs := jobs), done)
  }

  // ------------------------------------------------- jobs against stored items

  /** Every live manual job is stored. */
  ghost predicate LiveIsStored(env: Env, s: State) {
    match Read(env, s.file)
    case Ok(ms) => forall sid :: Live(s.jobs, sid) ==> Stored(ms, sid)
    case Err(_) => forall sid :: !Live(s.jobs, sid)
  }

  /** The live manual jobs are the stored schedules, no more and no fewer. */
  ghost predicate InSync(env: Env, s: State) {
    match Read(env, s.file)
    case Ok(ms) => forall sid :: Live(s.jobs, sid) <==> Stored(ms, sid)
    case Err(_) => forall sid :: !Live(s.jobs, sid)
  }

  lemma {:induction false} WithoutStored(ms: seq<Manual>, sid: string, x: string)
    ensures Stored(Without(ms, sid), x) <==> Stored(ms, x) && x != sid
    ensures |Without(ms, sid)| == |ms| <==> !Stored(ms, sid)
    ensures |Without(ms, sid)| <= |ms|
  {
    if ms == [] {
    } else {
      WithoutStored(ms[1..], sid, x);
      var head := if ms[0].id == sid then [] else [ms[0]];
      StoredSplit(head, Without(ms[1..], sid), x);
      StoredSplit([ms[0]], ms[1..], x);
      StoredSplit([ms[0]], ms[1..], sid);
      assert ms == [ms[0]] + ms[1..];
      assert [ms[0]][0].id == ms[0].id;
    }
  }

  lemma StoredSplit(a: seq<Manual>, b: seq<Manual>, x: string)
    ensures Stored(a + b, x) <==> Stored(a, x) || Stored(b, x)
  {
    if i :| 0 <= i < |a| && a[i].id == x {
      assert (a + b)[i].id == x;
    }
    if i :| 0 <= i < |b| && b[i].id == x {
      assert (a + b)[|a| + i].id == x;
    }
  }

  lemma {:induction false} WithoutCanonical(ms: seq<Manual>, sid: string)
    requires AllCanonical(ms)
    ensures AllCanonical(Without(ms, sid))
  {
    if ms == [] {
    } else {
      WithoutCanonical(ms[1..], sid);
      hide Canonical;
    }
  }

  /** Removal takes one id out of the file and out of the jobs, or nothing out of either. */
  lemma RemoveBoth(env: Env, s: State, sid: string, diskOk: bool, x: string)
    requires EnvOk(env) && JobsOk(s.jobs)
    ensures var (t, ok) := Remove(env, s, sid, diskOk);
      && JobsOk(t.jobs) && (!ok ==> t == s)
      && (ok ==> Read(env, s.file).Ok? && Read(env, t.file).Ok?
                 && (Live(t.jobs, x) <==> Live(s.jobs, x) && x != sid)
                 && (Stored(Read(env, t.file).value, x) <==> Stored(Read(env, s.file).value, x) && x != sid))
  {
    if Remove(env, s, sid, diskOk).1 {
      var ms := Read(env, s.file).value;
      ReadCanonical(env, s.file);
      WithoutCanonical(ms, sid);
      ReadBack(env, Without(ms, sid));
      WithoutStored(ms, sid, x);
      RemoveManualJob(s.jobs, sid);
      OthersOk(s.jobs, JobId(sid));
      OthersHas(s.jobs, JobId(sid), JobId(x));
      SameId(x, sid);
    }
  }

  /** How many of the first `i` elements are to be kept. */
  function KeptBefore<T>(s: seq<T>, keep: T -> bool, i: nat): (n: nat)
    requires i <= |s|
  {
    if i == 0 then 0 else KeptBefore(s, keep, i - 1) + if keep(s[i - 1]) then 1 else 0
  }

  /** `after` is `before` without what is not to be kept: everything else is there
      unchanged, each behind as many as were kept before it, and nothing more. */
  ghost predicate Kept<T(!new)>(before: seq<T>, after: seq<T>, keep: T -> bool) {
    && |after| == KeptBefore(before, keep, |before|)
    && forall i :: 0 <= i < |before| && keep(before[i]) ==>
         KeptBefore(before, keep, i) < |after| && after[KeptBefore(before, keep, i)] == before[i]
  }

  lemma {:induction false} KeptBehind<T>(x: T, s: seq<T>, keep: T -> bool, i: nat)
    requires i <= |s|
    ensures KeptBefore([x] + s, keep, i + 1) == KeptBefore(s, keep, i) + if keep(x) then 1 else 0
  {
    if i == 0 {
      assert KeptBefore([x] + s, keep, 0) == 0;
    } else {
      KeptBehind(x, s, keep, i - 1);
    }
  }

  lemma KeptMore<T(!new)>(x: T, before: seq<T>, after: seq<T>, keep: T -> bool)
    requires Kept(before, after, keep)
    ensures Kept([x] + before, (if keep(x) then [x] else []) + after, keep)
  {
    var all := [x] + before;
    KeptBehind(x, before, keep, |before|);
    forall i | 0 <= i < |all| && keep(all[i])
      ensures var more, n := (if keep(x) then [x] else []) + after, KeptBefore(all, keep, i);
        n < |more| && more[n] == all[i]
    {
      if i > 0 { KeptBehind(x, before, keep, i - 1); }
    }
  }

  lemma {:induction false} WithoutKeeps(ms: seq<Manual>, sid: string)
    ensures Kept(ms, Without(ms, sid), (m: Manual) => m.id != sid)
  {
    if ms == [] {
    } else {
      WithoutKeeps(ms[1..], sid);
      KeptMore(ms[0], ms[1..], Without(ms[1..], sid), (m: Manual) => m.id != sid);
      assert ms == [ms[0]] + ms[1..];
    }
  }

  lemma {:induction false} OthersKeeps(jobs: seq<Job>, id: string)
    ensures Kept(jobs, Others(jobs, id), (j: Job) => j.id != id)
  {
    if jobs == [] {
    } else {
      OthersKeeps(jobs[1..], id);
      KeptMore(jobs[0], jobs[1..], Others(jobs[1..], id), (j: Job) => j.id != id);
      assert jobs == [jobs[0]] + jobs[1..];
    }
  }

  /** A removal works exactly when the file can be read and written and holds the id.
      The next read then gives every other schedule unchanged and in its old order. */
  lemma RemovalWrites(env: Env, s: State, sid: string, diskOk: bool)
    requires EnvOk(env)
    ensures var (t, ok) := Remove(env, s, sid, diskOk);
      && (ok <==> diskOk && Read(env, s.file).Ok? && Stored(Read(env, s.file).value, sid))
      && (ok ==> Read(env, t.file).Ok?
                 && Kept(Read(env, s.file).value, Read(env, t.file).value, (m: Manual) => m.id != sid))
  {
    if Read(env, s.file).Ok? {
      var ms := Read(env, s.file).value;
      WithoutStored(ms, sid, sid);
      ReadCanonical(env, s.file);
      WithoutCanonical(ms, sid);
      ReadBack(env, Without(ms, sid));
      WithoutKeeps(ms, sid);
      hide Kept, Without, Canonical;
    }
  }

  /** The jobs after a removal: every other job is as it was. */
  lemma RemovalKeeps(env: Env, s: State, sid: string, diskOk: bool)
    requires JobsOk(s.jobs) && Remove(env, s, sid, diskOk).1
    ensures Kept(s.jobs, Remove(env, s, sid, diskOk).0.jobs, (j: Job) => j.id != JobId(sid))
  {
    RemoveManualJob(s.jobs, sid);
    OthersKeeps(s.jobs, JobId(sid));
    hide Kept, Without, Others, JobsOk;
  }

  /** A creation works exactly when the item is valid, its trigger is accepted, and the
      file can be read and written.  The next read then gives the old list with the
      new schedule behind it, and one job is new, with the schedule's own flag. */
  lemma CreationAppends(env: Env, s: State, item: Json, diskOk: bool)
    requires EnvOk(env) && JobsOk(s.jobs)
    requires Normalize(env, item).Ok? ==> FreshId(env, s, Normalize(env, item).value.id)
    ensures var (t, ok) := Create(env, s, item, diskOk);
      && (ok <==> diskOk && Normalize(env, item).Ok? && env.fires(Normalize(env, item).value.time)
                  && Read(env, s.file).Ok?)
      && (ok ==> var m := Normalize(env, item).value;
                 && Read(env, t.file) == Ok(Read(env, s.file).value + [m])
                 && |t.jobs| == |s.jobs| + 1 && t.jobs[..|s.jobs|] == s.jobs
                 && t.jobs[|s.jobs|] == Job("manual:" + m.id, "手动定时 " + m.id, m.singleTime))
  {
    if Normalize(env, item).Ok? && Read(env, s.file).Ok? {
      var m, ms := Normalize(env, item).value, Read(env, s.file).value;
      OthersAbsent(s.jobs, JobId(m.id));
      ReadCanonical(env, s.file);
      NormalizeIsCanonical(env, item);
      hide Canonical, Normalize, ReadItems;
      ReadBack(env, ms + [m]);
    }
  }

  /** remove_job hits the first job that has the key as its id or as its name. */
  lemma {:induction false} MatchIff(jobs: seq<Job>, key: string, k: nat)
    requires k < |jobs| && (jobs[k].id == key || jobs[k].name == key)
    requires forall i :: 0 <= i < k ==> jobs[i].id != key && jobs[i].name != key
    ensures Match(jobs, key) == Ok(jobs[k].id)
  {
    if k > 0 {
      MatchIff(jobs[1..], key, k - 1);
    }
  }

  lemma {:induction false} MatchNone(jobs: seq<Job>, key: string)
    requires forall i :: 0 <= i < |jobs| ==> jobs[i].id != key && jobs[i].name != key
    ensures Match(jobs, key).Err? && RemoveJob(jobs, key) == jobs
  {
    if jobs == [] {
    } else {
      MatchNone(jobs[1..], key);
    }
  }

  /** With unique ids remove_job takes out that job and nothing else. */
  lemma {:induction false} RemovesMatch(jobs: seq<Job>, key: string, k: nat)
    requires JobsOk(jobs) && k < |jobs| && (jobs[k].id == key || jobs[k].name == key)
    requires forall i :: 0 <= i < k ==> jobs[i].id != key && jobs[i].name != key
    ensures RemoveJob(jobs, key) == jobs[..k] + jobs[k + 1..]
  {
    MatchIff(jobs, key, k);
    RemoveIdAt(jobs, k);
  }

  lemma {:induction false} RemoveIdAt(jobs: seq<Job>, k: nat)
    requires k < |jobs| && forall i :: 0 <= i < k ==> jobs[i].id != jobs[k].id
    ensures RemoveId(jobs, jobs[k].id) == jobs[..k] + jobs[k + 1..]
  {
    if k == 0 {
    } else {
      RemoveIdAt(jobs[1..], k - 1);
      assert jobs[..k] == [jobs[0]] + jobs[1..][..k - 1];
    }
  }

  lemma SameId(x: string, y: string)
    ensures JobId(x) == JobId(y) <==> x == y
  {
    assert JobId(x)[|PREFIX|..] == x && JobId(y)[|PREFIX|..] == y;
  }

  /** A fresh id: no job and no stored schedule has it. */
  ghost predicate FreshId(env: Env, s: State, sid: string) {
    !Live(s.jobs, sid) && (Read(env, s.file).Ok? ==> !Stored(Read(env, s.file).value, sid))
  }

  lemma {:induction false} OthersAppend(jobs: seq<Job>, job: Job)
    requires !HasJob(jobs, job.id)
    ensures Others(jobs + [job], job.id) == jobs
  {
    if jobs == [] {
      assert jobs + [job] == [job];
    } else {
      assert jobs[0].id != job.id && !HasJob(jobs[1..], job.id);
      OthersAppend(jobs[1..], job);
      assert (jobs + [job])[1..] == jobs[1..] + [job];
    }
  }

  /** Creation adds one id to the file and to the jobs; when it fails, at the
      trigger, at reading or at writing, jobs and file are as before. */
  lemma CreateBoth(env: Env, s: State, item: Json, diskOk: bool, x: string)
    requires EnvOk(env) && JobsOk(s.jobs)
    requires Normalize(env, item).Ok? ==> FreshId(env, s, Normalize(env, item).value.id)
    ensures var (t, ok) := Create(env, s, item, diskOk);
      && JobsOk(t.jobs) && (!ok ==> t == s)
      && (ok ==> Normalize(env, item).Ok? && Read(env, s.file).Ok? && Read(env, t.file).Ok?
                 && (Live(t.jobs, x) <==> Live(s.jobs, x) || x == Normalize(env, item).value.id)
                 && (Stored(Read(env, t.file).value, x)
                     <==> Stored(Read(env, s.file).value, x) || x == Normalize(env, item).value.id))
  {
    if Normalize(env, item).Ok? {
      var m := Normalize(env, item).value;
      OthersAbsent(s.jobs, JobId(m.id));
      if env.fires(m.time) {
        RegisterOk(s.jobs, m, JobId(x));
        SameId(x, m.id);
        if Create(env, s, item, diskOk).1 {
          CreateStores(env, s.file, item, x);
        } else {
          RemoveManualJob(Register(s.jobs, ManualJob(m)), m.id);
          OthersAppend(s.jobs, ManualJob(m));
        }
      }
    }
  }

  lemma CreateStores(env: Env, f: File, item: Json, x: string)
    requires EnvOk(env) && Read(env, f).Ok? && Normalize(env, item).Ok?
    ensures var after := Read(env, Items(ItemsOf(Read(env, f).value + [Normalize(env, item).value])));
      && after.Ok?
      && (Stored(after.value, x) <==> Stored(Read(env, f).value, x) || x == Normalize(env, item).value.id)
  {
    var ms, m := Read(env, f).value, Normalize(env, item).value;
    ReadCanonical(env, f);
    NormalizeIsCanonical(env, item);
    hide Canonical, Normalize;
    ReadBack(env, ms + [m]);
    StoredSplit(ms, [m], x);
    assert [m][0].id == m.id;
  }

  /** Item `k` gets past the reload: it has a job, an earlier item gives it one, or
      its own trigger is accepted. */
  ghost predicate Loads(env: Env, jobs: seq<Job>, ms: seq<Manual>, k: nat)
    requires k < |ms|
  {
    Live(jobs, ms[k].id) || Stored(ms[..k], ms[k].id) || env.fires(ms[k].time)
  }

  /** A reload that runs to its end gives every stored schedule a job and keeps the
      jobs there were; one that stops leaves some stored schedule without a job. */
  lemma {:induction false} LoadLive(env: Env, jobs: seq<Job>, ms: seq<Manual>, x: string)
    requires JobsOk(jobs)
    ensures var (more, done) := Load(env, jobs, ms);
      && JobsOk(more)
      && (Live(jobs, x) ==> Live(more, x))
      && (Live(more, x) ==> Live(jobs, x) || Stored(ms, x))
      && (done ==> (Live(more, x) <==> Live(jobs, x) || Stored(ms, x)))
    decreases |ms|
  {
    if ms == [] {
    } else {
      assert ms == [ms[0]] + ms[1..] && [ms[0]][0].id == ms[0].id;
      StoredSplit([ms[0]], ms[1..], x);
      if HasJob(jobs, JobId(ms[0].id)) {
        LoadLive(env, jobs, ms[1..], x);
      } else if env.fires(ms[0].time) {
        RegisterOk(jobs, ms[0], JobId(x));
        SameId(x, ms[0].id);
        LoadLive(env, Register(jobs, ManualJob(ms[0])), ms[1..], x);
      } else {
        OthersAbsent(jobs, JobId(ms[0].id));
      }
    }
  }

  /** Where a reload stops, a stored schedule is left without a job. */
  lemma {:induction false} LoadStops(env: Env, jobs: seq<Job>, ms: seq<Manual>) returns (k: nat)
    requires JobsOk(jobs) && !Load(env, jobs, ms).1
    ensures k < |ms| && !Live(Load(env, jobs, ms).0, ms[k].id) && !Loads(env, jobs, ms, k)
    decreases |ms|
  {
    if HasJob(jobs, JobId(ms[0].id)) {
      k := LoadStops(env, jobs, ms[1..]);
      StoredPrefix(ms, k, ms[k + 1].id);
      k := k + 1;
    } else if env.fires(ms[0].time) {
      RegisterOk(jobs, ms[0], JobId(ms[0].id));
      k := LoadStops(env, Register(jobs, ManualJob(ms[0])), ms[1..]);
      StoredPrefix(ms, k, ms[k + 1].id);
      RegisterOk(jobs, ms[0], JobId(ms[k + 1].id));
      k := k + 1;
    } else {
      k := 0;
      OthersAbsent(jobs, JobId(ms[0].id));
    }
  }

  lemma StoredPrefix(ms: seq<Manual>, k: nat, x: string)
    requires k + 1 < |ms|
    ensures Stored(ms[..k + 1], x) <==> ms[0].id == x || Stored(ms[1..][..k], x)
  {
    assert ms[..k + 1] == [ms[0]] + ms[1..][..k];
    StoredSplit([ms[0]], ms[1..][..k], x);
    assert [ms[0]][0].id == ms[0].id;
  }

  lemma {:induction false} LoadRuns(env: Env, jobs: seq<Job>, ms: seq<Manual>, k: nat)
    requires JobsOk(jobs) && Load(env, jobs, ms).1 && k < |ms|
    ensures Loads(env, jobs, ms, k)
    decreases |ms|
  {
    if k == 0 {
    } else {
      StoredPrefix(ms, k - 1, ms[k].id);
      if HasJob(jobs, JobId(ms[0].id)) {
        LoadRuns(env, jobs, ms[1..], k - 1);
      } else {
        RegisterOk(jobs, ms[0], JobId(ms[k].id));
        SameId(ms[k].id, ms[0].id);
        LoadRuns(env, Register(jobs, ManualJob(ms[0])), ms[1..], k - 1);
      }
    }
  }

  /** After a reload the live manual jobs are the stored schedules exactly when
      every stored item can be loaded. */
  lemma ReloadSyncsIff(env: Env, s: State)
    requires EnvOk(env) && JobsOk(s.jobs) && LiveIsStored(env, s)
    ensures JobsOk(Reload(env, s).0.jobs) && LiveIsStored(env, Reload(env, s).0)
    ensures Read(env, s.file).Err? ==> Reload(env, s) == (s, false) && InSync(env, s)
    ensures Read(env, s.file).Ok? ==>
      (InSync(env, Reload(env, s).0)
       <==> forall k: nat :: k < |Read(env, s.file).value| ==> Loads(env, s.jobs, Read(env, s.file).value, k))
  {
    if Read(env, s.file).Ok? {
      var ms := Read(env, s.file).value;
      var (more, done) := Load(env, s.jobs, ms);
      LoadLive(env, s.jobs, ms, "");
      forall x ensures Live(more, x) ==> Stored(ms, x)
               ensures done ==> (Live(more, x) <==> Stored(ms, x)) {
        LoadLive(env, s.jobs, ms, x);
      }
      if done {
        forall k: nat | k < |ms| ensures Loads(env, s.jobs, ms, k) {
          LoadRuns(env, s.jobs, ms, k);
        }
      } else {
        var k := LoadStops(env, s.jobs, ms);
        assert Stored(ms, ms[k].id);
      }
    }
  }

  // -------------------------------------------------------------- steps and runs

  datatype Action =
    | CreateItem(item: Json, diskOk: bool)
    | RemoveItem(sid: string, diskOk: bool)
    | Fired(sid: string, single: bool, sent: bool, diskOk: bool)  // the end of ret_wrapper
    | Loaded                                                      // reload_manual_scheduler
    | Expired(sid: string)                                        // the scheduler drops an exhausted job

  ghost predicate Enabled(env: Env, s: State, a: Action) {
    match a
    case CreateItem(item, _) => Normalize(env, item).Ok? ==> FreshId(env, s, Normalize(env, item).value.id)
    case _ => true
  }

  /** A single-shot schedule is removed once its message went out, and only then. */
  function Apply(env: Env, s: State, a: Action): State {
    match a
    case CreateItem(item, diskOk) => Create(env, s, item, diskOk).0
    case RemoveItem(sid, diskOk) => Remove(env, s, sid, diskOk).0
    case Fired(sid, single, sent, diskOk) => if sent && single then Remove(env, s, sid, diskOk).0 else s
    case Loaded => Reload(env, s).0
    case Expired(sid) => s.(jobs := Others(s.jobs, JobId(sid)))
  }

  ghost predicate Runs(env: Env, s: State, actions: seq<Action>, t: State)
    decreases |actions|
  {
    if actions == [] then s == t
    else Enabled(env, s, actions[0]) && Runs(env, Apply(env, s, actions[0]), actions[1..], t)
  }

  /** The process has just started: the jobs of the code are registered, none of them manual. */
  ghost predicate Started(s: State) {
    JobsOk(s.jobs) && forall sid :: !Live(s.jobs, sid)
  }

  lemma RemoveStep(env: Env, s: State, sid: string, diskOk: bool)
    requires EnvOk(env) && JobsOk(s.jobs) && LiveIsStored(env, s)
    ensures var t := Remove(env, s, sid, diskOk).0;
      JobsOk(t.jobs) && LiveIsStored(env, t) && (InSync(env, s) ==> InSync(env, t))
  {
    var (t, ok) := Remove(env, s, sid, diskOk);
    RemoveBoth(env, s, sid, diskOk, "");
    if ok {
      forall x ensures Live(t.jobs, x) <==> Live(s.jobs, x) && x != sid
               ensures Stored(Read(env, t.file).value, x) <==> Stored(Read(env, s.file).value, x) && x != sid {
        RemoveBoth(env, s, sid, diskOk, x);
      }
    }
    hide Remove, Read, Live, Stored, JobsOk;
  }

  lemma CreateStep(env: Env, s: State, item: Json, diskOk: bool)
    requires EnvOk(env) && JobsOk(s.jobs) && LiveIsStored(env, s) && Enabled(env, s, CreateItem(item, diskOk))
    ensures var t := Create(env, s, item, diskOk).0;
      JobsOk(t.jobs) && LiveIsStored(env, t) && (InSync(env, s) ==> InSync(env, t))
  {
    var (t, ok) := Create(env, s, item, diskOk);
    CreateBoth(env, s, item, diskOk, "");
    if ok {
      var sid := Normalize(env, item).value.id;
      forall x ensures Live(t.jobs, x) <==> Live(s.jobs, x) || x == sid
               ensures Stored(Read(env, t.file).value, x) <==> Stored(Read(env, s.file).value, x) || x == sid {
        CreateBoth(env, s, item, diskOk, x);
      }
    }
    hide Create, Normalize, Read, Live, Stored, JobsOk;
  }

  lemma ReloadStep(env: Env, s: State)
    requires EnvOk(env) && JobsOk(s.jobs) && LiveIsStored(env, s)
    ensures var (t, done) := Reload(env, s);
      && JobsOk(t.jobs) && LiveIsStored(env, t) && (done || InSync(env, s) ==> InSync(env, t))
  {
    ReloadSyncsIff(env, s);
    if Read(env, s.file).Ok? {
      var ms := Read(env, s.file).value;
      forall k: nat | k < |ms| && (Reload(env, s).1 || InSync(env, s)) ensures Loads(env, s.jobs, ms, k) {
        if Reload(env, s).1 {
          LoadRuns(env, s.jobs, ms, k);
        } else {
          assert Stored(ms, ms[k].id);
        }
      }
    }
  }

  lemma ExpireStep(env: Env, s: State, sid: string)
    requires JobsOk(s.jobs) && LiveIsStored(env, s)
    ensures var t := Apply(env, s, Expired(sid)); JobsOk(t.jobs) && LiveIsStored(env, t)
  {
    OthersOk(s.jobs, JobId(sid));
    var t := Apply(env, s, Expired(sid));
    forall x ensures Live(t.jobs, x) ==> Live(s.jobs, x) {
      OthersHas(s.jobs, JobId(sid), JobId(x));
    }
  }

  /** No run ever leaves a live manual job without its stored schedule. */
  lemma {:induction false} NoOrphanJobs(env: Env, s: State, actions: seq<Action>, t: State)
    requires EnvOk(env) && JobsOk(s.jobs) && LiveIsStored(env, s) && Runs(env, s, actions, t)
    ensures JobsOk(t.jobs) && LiveIsStored(env, t)
    decreases |actions|
  {
    if actions == [] {
    } else {
      StepKeeps(env, s, actions[0]);
      NoOrphanJobs(env, Apply(env, s, actions[0]), actions[1..], t);
    }
  }

  lemma StepKeeps(env: Env, s: State, a: Action)
    requires EnvOk(env) && JobsOk(s.jobs) && LiveIsStored(env, s) && Enabled(env, s, a)
    ensures JobsOk(Apply(env, s, a).jobs) && LiveIsStored(env, Apply(env, s, a))
    ensures !a.Expired? && InSync(env, s) ==> InSync(env, Apply(env, s, a))
  {
    hide LiveIsStored, InSync, JobsOk;
    match a
    case CreateItem(item, diskOk) => CreateStep(env, s, item, diskOk);
    case RemoveItem(sid, diskOk) => RemoveStep(env, s, sid, diskOk);
    case Fired(sid, single, sent, diskOk) => RemoveStep(env, s, sid, diskOk);
    case Loaded => ReloadStep(env, s);
    case Expired(sid) => ExpireStep(env, s, sid);
  }

  /** Once in step, jobs and file stay in step until the scheduler drops a job. */
  lemma {:induction false} StaysInSync(env: Env, s: State, actions: seq<Action>, t: State)
    requires EnvOk(env) && JobsOk(s.jobs) && LiveIsStored(env, s) && InSync(env, s) && Runs(env, s, actions, t)
    requires forall a :: a in actions ==> !a.Expired?
    ensures InSync(env, t)
    decreases |actions|
  {
    if actions == [] {
    } else {
      assert actions[0] in actions;
      StepKeeps(env, s, actions[0]);
      StaysInSync(env, Apply(env, s, actions[0]), actions[1..], t);
    }
  }

  /** From a start whose load runs to its end, the live manual jobs are the stored
      schedules after any creations, removals, reloads and firings. */
  lemma SyncedFromStart(env: Env, s: State, actions: seq<Action>, t: State)
    requires EnvOk(env) && Started(s) && Reload(env, s).1
    requires Runs(env, Reload(env, s).0, actions, t) && forall a :: a in actions ==> !a.Expired?
    ensures InSync(env, t) && LiveIsStored(env, t)
  {
    ReloadStep(env, s);
    StaysInSync(env, Reload(env, s).0, actions, t);
    NoOrphanJobs(env, Reload(env, s).0, actions, t);
  }

  // ------------------------------------------------------- whose flag a job has

  /** The flag of a schedule that is stored under `sid`. */
  predicate StoredFlag(ms: seq<Manual>, sid: string, single: bool) {
    exists k :: 0 <= k < |ms| && ms[k].id == sid && ms[k].singleTime == single
  }

  /** If the job is a manual one, it is single-shot or not as a stored schedule of its id says. */
  ghost predicate Carries(job: Job, ms: seq<Manual>) {
    forall sid :: job.id == JobId(sid) ==> StoredFlag(ms, sid, job.single)
  }

  ghost predicate AllCarry(jobs: seq<Job>, ms: seq<Manual>) {
    forall i :: 0 <= i < |jobs| ==> Carries(jobs[i], ms)
  }

  ghost predicate FlagsOk(env: Env, s: State) {
    Read(env, s.file).Ok? ==> AllCarry(s.jobs, Read(env, s.file).value)
  }

  lemma {:induction false} WithoutFlag(ms: seq<Manual>, sid: string, x: string, single: bool)
    requires x != sid && StoredFlag(ms, x, single)
    ensures StoredFlag(Without(ms, sid), x, single)
  {
    WithoutKeeps(ms, sid);
    var k :| 0 <= k < |ms| && ms[k].id == x && ms[k].singleTime == single;
    assert Without(ms, sid)[KeptBefore(ms, (m: Manual) => m.id != sid, k)] == ms[k];
  }

  lemma OthersCarry(jobs: seq<Job>, ms: seq<Manual>, sid: string)
    requires JobsOk(jobs) && AllCarry(jobs, ms)
    ensures AllCarry(Others(jobs, JobId(sid)), ms) && AllCarry(Others(jobs, JobId(sid)), Without(ms, sid))
  {
    var rest := Others(jobs, JobId(sid));
    OthersOk(jobs, JobId(sid));
    forall i | 0 <= i < |rest| ensures Carries(rest[i], ms) && Carries(rest[i], Without(ms, sid)) {
      assert rest[i] in jobs;
      assert Carries(rest[i], ms);
      forall x | rest[i].id == JobId(x) ensures StoredFlag(Without(ms, sid), x, rest[i].single) {
        WithoutFlag(ms, sid, x, rest[i].single);
      }
    }
  }

  lemma RemoveFlags(env: Env, s: State, sid: string, diskOk: bool)
    requires EnvOk(env) && JobsOk(s.jobs) && FlagsOk(env, s)
    ensures FlagsOk(env, Remove(env, s, sid, diskOk).0)
  {
    if Remove(env, s, sid, diskOk).1 {
      var ms := Read(env, s.file).value;
      ReadCanonical(env, s.file);
      WithoutCanonical(ms, sid);
      ReadBack(env, Without(ms, sid));
      RemoveManualJob(s.jobs, sid);
      OthersCarry(s.jobs, ms, sid);
      hide AllCarry, JobsOk, Without, Canonical;
    }
  }

  lemma NewCarries(m: Manual, ms: seq<Manual>, k: nat)
    requires k < |ms| && ms[k] == m
    ensures Carries(ManualJob(m), ms)
  {
    forall sid | ManualJob(m).id == JobId(sid) ensures StoredFlag(ms, sid, m.singleTime) {
      SameId(m.id, sid);
    }
  }

  lemma MoreCarry(jobs: seq<Job>, ms: seq<Manual>, m: Manual)
    requires AllCarry(jobs, ms)
    ensures AllCarry(jobs, ms + [m])
  {
    forall i | 0 <= i < |jobs| ensures Carries(jobs[i], ms + [m]) {
      forall sid | jobs[i].id == JobId(sid) ensures StoredFlag(ms + [m], sid, jobs[i].single) {
        var k :| 0 <= k < |ms| && ms[k].id == sid && ms[k].singleTime == jobs[i].single;
        assert (ms + [m])[k] == ms[k];
      }
    }
  }

  lemma CreateFlags(env: Env, s: State, item: Json, diskOk: bool)
    requires EnvOk(env) && JobsOk(s.jobs) && FlagsOk(env, s) && Enabled(env, s, CreateItem(item, diskOk))
    ensures FlagsOk(env, Create(env, s, item, diskOk).0)
  {
    CreationAppends(env, s, item, diskOk);
    CreateBoth(env, s, item, diskOk, "");
    var (t, ok) := Create(env, s, item, diskOk);
    if ok {
      var ms, m := Read(env, s.file).value, Normalize(env, item).value;
      MoreCarry(s.jobs, ms, m);
      NewCarries(m, ms + [m], |ms|);
      assert t.jobs == t.jobs[..|s.jobs|] + [ManualJob(m)];
      hide Create, Normalize, Read, JobsOk, Carries;
    }
  }

  lemma {:induction false} LoadFlags(env: Env, jobs: seq<Job>, ms: seq<Manual>, done: nat)
    requires JobsOk(jobs) && done <= |ms| && AllCarry(jobs, ms)
    ensures AllCarry(Load(env, jobs, ms[done..]).0, ms)
    decreases |ms| - done
  {
    if done < |ms| {
      assert ms[done..][1..] == ms[done + 1..] && ms[done..][0] == ms[done];
      var m := ms[done];
      hide JobsOk, Carries;
      if HasJob(jobs, JobId(m.id)) {
        LoadFlags(env, jobs, ms, done + 1);
      } else {
        OthersAbsent(jobs, JobId(m.id));
        RegisterOk(jobs, m, "");
        NewCarries(m, ms, done);
        if env.fires(m.time) { LoadFlags(env, Register(jobs, ManualJob(m)), ms, done + 1); }
      }
    }
  }

  lemma FlagsStep(env: Env, s: State, a: Action)
    requires EnvOk(env) && JobsOk(s.jobs) && FlagsOk(env, s) && Enabled(env, s, a)
    ensures FlagsOk(env, Apply(env, s, a))
  {
    match a
    case CreateItem(item, diskOk) => CreateFlags(env, s, item, diskOk);
    case RemoveItem(sid, diskOk) => RemoveFlags(env, s, sid, diskOk);
    case Fired(sid, single, sent, diskOk) => RemoveFlags(env, s, sid, diskOk);
    case Loaded =>
      if Read(env, s.file).Ok? {
        var ms := Read(env, s.file).value;
        assert ms[0..] == ms;
        LoadFlags(env, s.jobs, ms, 0);
      }
    case Expired(sid) =>
      if Read(env, s.file).Ok? { OthersCarry(s.jobs, Read(env, s.file).value, sid); }
  }

  /** In every run from a start each live manual job is single-shot or not as a schedule
      stored under its id says. */
  lemma {:induction false} JobsCarryFlags(env: Env, s: State, actions: seq<Action>, t: State)
    requires EnvOk(env) && JobsOk(s.jobs) && LiveIsStored(env, s) && FlagsOk(env, s) && Runs(env, s, actions, t)
    ensures FlagsOk(env, t)
    decreases |actions|
  {
    if actions == [] {
    } else {
      hide Enabled, Apply, FlagsOk, LiveIsStored, JobsOk;
      StepKeeps(env, s, actions[0]);
      FlagsStep(env, s, actions[0]);
      JobsCarryFlags(env, Apply(env, s, actions[0]), actions[1..], t);
    }
  }

  /** What the firing of a live job leaves: its schedule goes, with all others kept, exactly
      when its own flag says single-shot, its message went out and the file can be written. */
  lemma FiringRemovesIff(env: Env, s: State, i: nat, sid: string, sent: bool, diskOk: bool)
    requires EnvOk(env) && JobsOk(s.jobs) && LiveIsStored(env, s) && FlagsOk(env, s)
    requires i < |s.jobs| && s.jobs[i].id == JobId(sid)
    ensures Read(env, s.file).Ok? && Read(env, Apply(env, s, Fired(sid, s.jobs[i].single, sent, diskOk)).file).Ok?
    ensures StoredFlag(Read(env, s.file).value, sid, s.jobs[i].single)
    ensures var t := Apply(env, s, Fired(sid, s.jobs[i].single, sent, diskOk));
      && (Stored(Read(env, t.file).value, sid) <==> !(s.jobs[i].single && sent && diskOk))
      && (s.jobs[i].single && sent && diskOk ==>
            Kept(Read(env, s.file).value, Read(env, t.file).value, (m: Manual) => m.id != sid))
  {
    RemovalWrites(env, s, sid, diskOk);
    RemoveBoth(env, s, sid, diskOk, sid);
    assert Live(s.jobs, sid);
    assert Read(env, s.file).Ok? ==> Carries(s.jobs[i], Read(env, s.file).value);
    hide Remove, Kept, Read, StoredFlag;
  }

  // ------------------------------------------------------------- exhausted jobs

  /** A stored schedule without a live job. */
  ghost predicate MissingJob(env: Env, s: State, sid: string) {
    Read(env, s.file).Ok? && Stored(Read(env, s.file).value, sid) && !Live(s.jobs, sid)
  }

  /** Agreement is broken exactly by the schedules whose jobs are missing. */
  lemma InSyncIff(env: Env, s: State)
    requires LiveIsStored(env, s)
    ensures InSync(env, s) <==> forall sid :: !MissingJob(env, s, sid)
  {
    if Read(env, s.file).Ok? && forall sid :: !MissingJob(env, s, sid) {
      var ms := Read(env, s.file).value;
      forall sid ensures Live(s.jobs, sid) <==> Stored(ms, sid) {
        assert !MissingJob(env, s, sid);
      }
    }
  }

  /** Whether `sid` has lost its job and not been seen to since: it loses it by
      expiring while live, and the loss ends when it is removed or when a reload
      gives it a job again. */
  ghost predicate LostAfter(env: Env, s: State, a: Action, sid: string, lost: bool) {
    match a
    case Expired(x) => lost || (x == sid && Live(s.jobs, sid))
    case RemoveItem(x, diskOk) => lost && !(x == sid && Remove(env, s, x, diskOk).1)
    case Fired(x, single, sent, diskOk) => lost && !(x == sid && sent && single && Remove(env, s, x, diskOk).1)
    case Loaded => lost && !Live(Reload(env, s).0.jobs, sid)
    case CreateItem(_, _) => lost
  }

  /** The same over a run. */
  ghost predicate Lost(env: Env, s: State, actions: seq<Action>, sid: string, lost: bool)
    decreases |actions|
  {
    if actions == [] then lost
    else Lost(env, Apply(env, s, actions[0]), actions[1..], sid, LostAfter(env, s, actions[0], sid, lost))
  }

  /** `sid` had its job at first, lost it in the run and has not been seen to since. */
  ghost predicate LostInRun(env: Env, s: State, actions: seq<Action>, sid: string) {
    Lost(env, s, actions, sid, false)
  }

  lemma MissingRemove(env: Env, s: State, x: string, diskOk: bool, sid: string)
    requires EnvOk(env) && JobsOk(s.jobs)
    ensures MissingJob(env, Remove(env, s, x, diskOk).0, sid)
       <==> MissingJob(env, s, sid) && !(x == sid && Remove(env, s, x, diskOk).1)
  {
    RemoveBoth(env, s, x, diskOk, sid);
    hide Remove, Live, Stored, Read, JobsOk;
  }

  lemma MissingCreate(env: Env, s: State, item: Json, diskOk: bool, sid: string)
    requires EnvOk(env) && JobsOk(s.jobs) && Enabled(env, s, CreateItem(item, diskOk))
    ensures MissingJob(env, Create(env, s, item, diskOk).0, sid) <==> MissingJob(env, s, sid)
  {
    CreateBoth(env, s, item, diskOk, sid);
    hide Create, Live, Stored, Read, JobsOk, Normalize;
  }

  lemma MissingReload(env: Env, s: State, sid: string)
    requires EnvOk(env) && JobsOk(s.jobs)
    ensures MissingJob(env, Reload(env, s).0, sid) <==> MissingJob(env, s, sid) && !Live(Reload(env, s).0.jobs, sid)
  {
    if Read(env, s.file).Ok? {
      LoadLive(env, s.jobs, Read(env, s.file).value, sid);
    }
  }

  lemma MissingExpire(env: Env, s: State, x: string, sid: string)
    requires LiveIsStored(env, s)
    ensures MissingJob(env, Apply(env, s, Expired(x)), sid)
       <==> MissingJob(env, s, sid) || (x == sid && Live(s.jobs, sid))
  {
    OthersHas(s.jobs, JobId(x), JobId(sid));
    SameId(x, sid);
  }

  /** One step of the account of lost jobs. */
  lemma MissingStep(env: Env, s: State, a: Action, sid: string)
    requires EnvOk(env) && JobsOk(s.jobs) && LiveIsStored(env, s) && Enabled(env, s, a)
    ensures MissingJob(env, Apply(env, s, a), sid) <==> LostAfter(env, s, a, sid, MissingJob(env, s, sid))
  {
    match a
    case CreateItem(item, diskOk) => MissingCreate(env, s, item, diskOk, sid);
    case RemoveItem(x, diskOk) => MissingRemove(env, s, x, diskOk, sid);
    case Fired(x, single, sent, diskOk) => MissingRemove(env, s, x, diskOk, sid);
    case Loaded => MissingReload(env, s, sid);
    case Expired(x) => MissingExpire(env, s, x, sid);
  }

  /** In any run, expiries included, the stored schedules without a job are exactly
      those that were without one at the start or expired while live, and have since
      been neither removed nor given a job by a reload. */
  lemma {:induction false} MissingIsLost(env: Env, s: State, actions: seq<Action>, t: State, sid: string)
    requires EnvOk(env) && JobsOk(s.jobs) && LiveIsStored(env, s) && Runs(env, s, actions, t)
    ensures MissingJob(env, t, sid) <==> Lost(env, s, actions, sid, MissingJob(env, s, sid))
    decreases |actions|
  {
    if actions == [] {
    } else {
      hide Enabled, Apply, MissingJob, LostAfter, LiveIsStored, JobsOk;
      StepKeeps(env, s, actions[0]);
      MissingStep(env, s, actions[0], sid);
      MissingIsLost(env, Apply(env, s, actions[0]), actions[1..], t, sid);
    }
  }

  /** From a start whose load completes, jobs and file agree after a run, whatever
      happens in it, exactly when no schedule has lost its job and stayed without. */
  lemma SyncedIff(env: Env, s: State, actions: seq<Action>, t: State)
    requires EnvOk(env) && Started(s) && Reload(env, s).1 && Runs(env, Reload(env, s).0, actions, t)
    ensures InSync(env, t) <==> forall sid :: !LostInRun(env, Reload(env, s).0, actions, sid)
  {
    hide Live, Stored, Read, JobsOk, LiveIsStored, InSync, MissingJob, Lost, Runs, Reload;
    var u := Reload(env, s).0;
    StartIsStored(env, s);
    ReloadStep(env, s);
    NoOrphanJobs(env, u, actions, t);
    InSyncIff(env, u);
    InSyncIff(env, t);
    forall sid ensures MissingJob(env, t, sid) <==> LostInRun(env, u, actions, sid) {
      MissingIsLost(env, u, actions, t, sid);
      assert !MissingJob(env, u, sid);
    }
  }

  lemma StartIsStored(env: Env, s: State)
    requires Started(s)
    ensures JobsOk(s.jobs) && LiveIsStored(env, s)
  {
  }

  /** An expiry breaks the agreement exactly when the job was live. */
  lemma ExpiryBreaksIff(env: Env, s: State, sid: string)
    requires LiveIsStored(env, s) && InSync(env, s) && JobsOk(s.jobs)
    ensures InSync(env, Apply(env, s, Expired(sid))) <==> !Live(s.jobs, sid)
  {
    hide Live, Stored, Read, JobsOk, LiveIsStored, InSync, MissingJob, Apply;
    var t := Apply(env, s, Expired(sid));
    ExpireStep(env, s, sid);
    InSyncIff(env, s);
    InSyncIff(env, t);
    forall x ensures MissingJob(env, t, x) <==> x == sid && Live(s.jobs, sid) {
      MissingExpire(env, s, sid, x);
      assert !MissingJob(env, s, x);
    }
    if Live(s.jobs, sid) { assert MissingJob(env, t, sid); }
  }

  /** A schedule for one date: the scheduler drops its job when it submits it, before
      the message goes out.  Jobs and file agree again behind the firing exactly when
      it is a single-shot schedule whose message went out and whose removal reached
      the disk; otherwise it stays stored without a job. */
  lemma DatedFiringIff(env: Env, s: State, sid: string, single: bool, sent: bool, diskOk: bool)
    requires EnvOk(env) && LiveIsStored(env, s) && InSync(env, s) && JobsOk(s.jobs) && Live(s.jobs, sid)
    ensures var t := Apply(env, Apply(env, s, Expired(sid)), Fired(sid, single, sent, diskOk));
      InSync(env, t) <==> single && sent && diskOk
  {
    var u := Apply(env, s, Expired(sid));
    var t := Apply(env, u, Fired(sid, single, sent, diskOk));
    assert Read(env, u.file).Ok? && Stored(Read(env, u.file).value, sid);
    RemoveWorks(env, u, sid, diskOk);
    hide Live, Stored, Read, JobsOk, LiveIsStored, InSync, MissingJob, Remove, Enabled;
    ExpireStep(env, s, sid);
    StepKeeps(env, u, Fired(sid, single, sent, diskOk));
    InSyncIff(env, s);
    InSyncIff(env, t);
    forall x ensures MissingJob(env, t, x) <==> x == sid && !(single && sent && diskOk) {
      MissingExpire(env, s, sid, x);
      MissingRemove(env, u, sid, diskOk, x);
      assert !MissingJob(env, s, x);
    }
    if !(single && sent && diskOk) { assert MissingJob(env, t, sid); }
  }

  /** Removing a stored schedule works exactly when the disk does. */
  lemma RemoveWorks(env: Env, s: State, sid: string, diskOk: bool)
    requires Read(env, s.file).Ok? && Stored(Read(env, s.file).value, sid)
    ensures Remove(env, s, sid, diskOk).1 <==> diskOk
  {
    WithoutStored(Read(env, s.file).value, sid, sid);
  }
}
