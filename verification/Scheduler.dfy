/**
 The scheduler as a mutable object: the job list and the schedule file.  Each
 method changes them step by step and ends in the state that the transition
 system gives.
 */
module Scheduler {
  import opened Bytes
  import opened Schedule
  import opened ScheduleStore

  function CountId(jobs: seq<Job>, id: string): nat {
    if jobs == [] then 0 else (if jobs[0].id == id then 1 else 0) + CountId(jobs[1..], id)
  }

  lemma {:induction false} RemoveOne(jobs: seq<Job>, id: string)
    ensures Others(RemoveId(jobs, id), id) == Others(jobs, id)
    ensures CountId(RemoveId(jobs, id), id) == if CountId(jobs, id) == 0 then 0 else CountId(jobs, id) - 1
    ensures CountId(jobs, id) == 0 ==> Others(jobs, id) == jobs
  {
    if jobs == [] {
    } else {
      RemoveOne(jobs[1..], id);
      if jobs[0].id != id {
        assert RemoveId(jobs, id)[1..] == RemoveId(jobs[1..], id);
      }
    }
  }

  lemma {:induction false} CountAppend(a: seq<Job>, b: seq<Job>, id: string)
    ensures CountId(a + b, id) == CountId(a, id) + CountId(b, id)
  {
    if a == [] {
      assert a + b == b;
    } else {
      CountAppend(a[1..], b, id);
      assert (a + b)[1..] == a[1..] + b;
    }
  }

  /** The schedules `done` in front of what is still to be read. */
  function Prepend(done: seq<Manual>, r: Result<seq<Manual>, Error>): Result<seq<Manual>, Error> {
    if r.Err? then r else Ok(done + r.value)
  }

  lemma PrependNothing(r: Result<seq<Manual>, Error>, done: seq<Manual>)
    ensures Prepend([], r) == r && Prepend(done, Ok([])) == Ok(done)
  {
    assert r.Ok? ==> [] + r.value == r.value;
    assert done + [] == done;
  }

  lemma ReadNext(env: Env, items: seq<Json>, k: nat, done: seq<Manual>)
    requires k < |items|
    ensures Prepend(done, ReadItems(env, items[k..]))
         == (match Normalize(env, items[k])
             case Ok(m) => Prepend(done + [m], ReadItems(env, items[k + 1..]))
             case Err(e) => Err(e))
  {
    hide Normalize;
    assert items[k..][1..] == items[k + 1..] && items[k..][0] == items[k];
    var m, rest := Normalize(env, items[k]), ReadItems(env, items[k + 1..]);
    if m.Ok? && rest.Ok? {
      assert done + ([m.value] + rest.value) == done + [m.value] + rest.value;
    }
  }

  class Service {
    const env: Env
    var jobs: seq<Job>
    var file: File

    constructor (env: Env, jobs: seq<Job>, file: File)
      ensures this.env == env && this.jobs == jobs && this.file == file
    {
      this.env, this.jobs, this.file := env, jobs, file;
    }

    ghost function View(): State
      reads this
    {
      State(jobs, file)
    }

    /** read_manual_schedules. */
    method ReadSchedules() returns (r: Result<seq<Manual>, Error>)
      ensures r == Read(env, file)
    {
      match file
      case Missing => return Ok([]);
      case Broken => return Err(BadFile);
      case Items(items) =>
        hide Normalize;
        var done: seq<Manual> := [];
        assert items[0..] == items;
        PrependNothing(ReadItems(env, items), done);
        for k := 0 to |items|
          invariant ReadItems(env, items) == Prepend(done, ReadItems(env, items[k..]))
        {
          ReadNext(env, items, k, done);
          var m := Normalize(env, items[k]);
          if m.Err? {
            return Err(m.error);
          }
          done := done + [m.value];
        }
        assert items[|items|..] == [];
        PrependNothing(Ok([]), done);
        return Ok(done);
    }

    /** write_manual_schedules: everything is normalised first, and an item that
        cannot be raises before anything is written; then the file is replaced as a
        whole or, when the disk refuses, not at all. */
    method WriteSchedules(items: seq<Json>, diskOk: bool) returns (r: Result<bool, Error>)
      modifies this`file
      ensures match ReadItems(env, items)
        case Err(e) => r == Err(e) && file == old(file)
        case Ok(ms) => r == Ok(diskOk) && file == if diskOk then Items(ItemsOf(ms)) else old(file)
    {
      hide Normalize, ToJson;
      var done: seq<Manual> := [];
      assert items[0..] == items;
      PrependNothing(ReadItems(env, items), done);
      for k := 0 to |items|
        invariant file == old(file) && ReadItems(env, items) == Prepend(done, ReadItems(env, items[k..]))
      {
        ReadNext(env, items, k, done);
        var m := Normalize(env, items[k]);
        if m.Err? {
          return Err(m.error);
        }
        done := done + [m.value];
      }
      assert items[|items|..] == [];
      PrependNothing(Ok([]), done);
      if diskOk {
        file := Items(ItemsOf(done));
      }
      return Ok(diskOk);
    }

    /** remove_job. */
    method RemoveJobNamed(key: string) returns (removed: bool)
      modifies this`jobs
      ensures removed == Match(old(jobs), key).Ok? && jobs == RemoveJob(old(jobs), key)
    {
      for k := 0 to |jobs|
        invariant jobs == old(jobs) && Match(jobs, key) == Match(jobs[k..], key)
      {
        assert jobs[k..][0] == jobs[k] && jobs[k..][1..] == jobs[k + 1..];
        if jobs[k].id == key || jobs[k].name == key {
          jobs := RemoveId(jobs, jobs[k].id);
          return true;
        }
      }
      return false;
    }

    /** ScheduleModule.register: the old jobs of the id go one by one, then the new
        one is added if its trigger is accepted. */
    method AddJob(job: Job, time: map<string, Json>) returns (ok: bool)
      modifies this`jobs
      ensures ok == env.fires(time)
      ensures jobs == if ok then Register(old(jobs), job) else Others(old(jobs), job.id)
    {
      var existing := 0;
      for k := 0 to |jobs|
        invariant jobs == old(jobs) && existing == CountId(jobs[..k], job.id)
      {
        CountAppend(jobs[..k], [jobs[k]], job.id);
        assert jobs[..k + 1] == jobs[..k] + [jobs[k]];
        if jobs[k].id == job.id {
          existing := existing + 1;
        }
      }
      assert jobs[..|jobs|] == jobs;
      for k := 0 to existing
        invariant CountId(jobs, job.id) == existing - k
        invariant Others(jobs, job.id) == Others(old(jobs), job.id)
        modifies this`jobs
      {
        RemoveOne(jobs, job.id);
        jobs := RemoveId(jobs, job.id);
      }
      RemoveOne(jobs, job.id);
      ok := env.fires(time);
      if ok {
        jobs := jobs + [job];
      }
    }

    /** remove_manual_schedule. */
    method RemoveManual(sid: string, diskOk: bool) returns (removed: bool)
      requires EnvOk(env)
      modifies this
      ensures (View(), removed) == Remove(env, old(View()), sid, diskOk)
      ensures removed ==> Read(env, old(file)).Ok? && Read(env, file).Ok?
      ensures removed ==> Kept(Read(env, old(file)).value, Read(env, file).value, (m: Manual) => m.id != sid)
    {
      hide Normalize, Canonical, ToJson, RemoveJob, ReadItems, IdOk, Match, Kept, Read;
      RemovalWrites(env, View(), sid, diskOk);
      var read := ReadSchedules();
      if read.Err? {
        return false;
      }
      var schedules := read.value;
      var remaining: seq<Manual> := [];
      for k := 0 to |schedules|
        invariant View() == old(View())
        invariant remaining + ScheduleStore.Without(schedules[k..], sid) == ScheduleStore.Without(schedules, sid)
      {
        if schedules[k].id != sid {
          remaining := remaining + [schedules[k]];
        }
      }
      assert schedules[|schedules|..] == [];
      assert remaining == ScheduleStore.Without(schedules, sid);
      if |remaining| == |schedules| {
        return false;
      }
      ReadCanonical(env, file);
      WithoutCanonical(schedules, sid);
      ReadBack(env, remaining);
      var written := WriteSchedules(ItemsOf(remaining), diskOk);
      if written != Ok(true) {
        return false;
      }
      var _ := RemoveJobNamed(JobId(sid));
      return true;
    }

    /** create_manual_schedule. */
    method CreateManual(item: Json, diskOk: bool) returns (created: bool)
      requires EnvOk(env)
      modifies this
      ensures (View(), created) == Create(env, old(View()), item, diskOk)
    {
      var normal := Normalize(env, item);
      if normal.Err? {
        return false;
      }
      var m := normal.value;
      var loaded := AddJob(ManualJob(m), m.time);
      if !loaded {
        return false;
      }
      var read := ReadSchedules();
      var written := false;
      if read.Ok? {
        ReadCanonical(env, file);
        NormalizeIsCanonical(env, item);
        ReadBack(env, read.value + [m]);
        var result := WriteSchedules(ItemsOf(read.value + [m]), diskOk);
        written := result == Ok(true);
      }
      if !written {
        var _ := RemoveJobNamed(JobId(m.id));
        return false;
      }
      return true;
    }

    /** reload_manual_scheduler. */
    method ReloadManual() returns (done: bool)
      modifies this`jobs
      ensures (View(), done) == Reload(env, old(View()))
    {
      var read := ReadSchedules();
      if read.Err? {
        return false;
      }
      var ms := read.value;
      for k := 0 to |ms|
        invariant Load(env, old(jobs), ms) == Load(env, jobs, ms[k..])
        modifies this`jobs
      {
        assert ms[k..][0] == ms[k] && ms[k..][1..] == ms[k + 1..];
        if !HasJob(jobs, JobId(ms[k].id)) {
          var loaded := AddJob(ManualJob(ms[k]), ms[k].time);
          if !loaded {
            return false;
          }
        }
      }
      assert ms[|ms|..] == [];
      return true;
    }

    /** The end of ret_wrapper for a manual job. */
    method AfterFiring(sid: string, single: bool, sent: bool, diskOk: bool)
      requires EnvOk(env)
      modifies this
      ensures View() == Apply(env, old(View()), Fired(sid, single, sent, diskOk))
    {
      if sent {
        if single {
          var _ := RemoveManual(sid, diskOk);
        }
      }
    }
  }
}
