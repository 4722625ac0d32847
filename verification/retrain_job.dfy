/**
 * The retrain scheduler: the decision whether a model is behind its schedule, and the registry of
 * periodic retrain jobs it rebuilds on every resync.
 */
module RetrainJob {
  import opened Wrappers
  import opened JsString
  import opened MindsdbModels
  import IsoDate

  /** Cadence to cron expression. */
  type ScheduleTable = map<Cadence, string>

  /** The table the service starts with: 04:00 on the 1st of the month, 04:00 on Sundays,
      04:00 every day, and the top of every hour. */
  function DefaultSchedule(): (t: ScheduleTable)
    ensures t.Keys == {Monthly, Weekly, Daily, Hourly}
    ensures t[Monthly] == "0 4 1 * *" && t[Weekly] == "0 4 * * 0"
    ensures t[Daily] == "0 4 * * *" && t[Hourly] == "0 * * * *"
  {
    map[Monthly := "0 4 1 * *", Weekly := "0 4 * * 0", Daily := "0 4 * * *", Hourly := "0 * * * *"]
  }

  /** The cadence as the source spells it. */
  function CadenceName(c: Cadence): string {
    match c
    case Monthly => "monthly"
    case Weekly => "weekly"
    case Daily => "daily"
    case Hourly => "hourly"
  }

  /** `scheduleType.slice(0, -2)`: the unit handed to dayjs when stepping back one period. */
  function StepUnit(c: Cadence): (u: string)
    ensures |u| == |CadenceName(c)| - 2 && u == CadenceName(c)[..|u|]
  {
    var name := CadenceName(c);
    name[..|name| - 2]
  }

  /** The units are "month", "week", "dai" and "hour": the daily cadence yields no dayjs unit. */
  lemma StepUnits()
    ensures StepUnit(Monthly) == "month" && StepUnit(Weekly) == "week"
    ensures StepUnit(Daily) == "dai" && StepUnit(Hourly) == "hour"
  {
    assert "monthly"[..5] == "month";
    assert "weekly"[..4] == "week";
    assert "daily"[..3] == "dai";
    assert "hourly"[..4] == "hour";
  }

  /** `subtract(1/3, "hour")`: one third of an hour, which is exactly 1 200 000 ms in binary64. */
  const BufferMs: int := 1_200_000

  /**
   * The clock, calendar and cron arithmetic the scheduler delegates to libraries, as functions
   * over time values in milliseconds.
   */
  datatype TimeEnv = TimeEnv(
    // `sendAt(expression)`: the next fire time after the current instant; None when the
    // expression cannot be parsed (the same parse `new CronJob` performs)
    nextFire: string -> Option<int>,
    // `dayjs(t).tz(zone, true)`: the instant showing the same wall-clock reading in `zone`
    keepLocalTime: (int, string) -> int,
    // `subtract(1, "month")` in `zone`
    subtractMonth: (int, string) -> int,
    // `subtract(1, "week")` in `zone`
    subtractWeek: (int, string) -> int)

  /** dayjs `subtract(1, unit)` for the units `StepUnit` produces: month and week are calendar
      steps, an hour is 3 600 000 ms, and a unit dayjs does not know steps by one millisecond. */
  function SubtractOne(env: TimeEnv, t: int, unit: string, zone: string): (r: int)
    ensures unit != "month" && unit != "week" ==> t - IsoDate.MsPerHour <= r < t
  {
    if unit == "month" then env.subtractMonth(t, zone)
    else if unit == "week" then env.subtractWeek(t, zone)
    else if unit == "hour" then t - IsoDate.MsPerHour
    else t - 1
  }

  /** The latest last-run time that still counts as behind schedule: the next fire time read in
      `zone`, one period earlier, less the 20-minute buffer. */
  function DueThreshold(env: TimeEnv, c: Cadence, next: int, zone: string): (r: int)
    ensures c == Daily || c == Hourly ==> r < env.keepLocalTime(next, zone) - BufferMs
  {
    StepUnits();
    SubtractOne(env, env.keepLocalTime(next, zone), StepUnit(c), zone) - BufferMs
  }

  /** `table.get(c)` */
  function Lookup(table: ScheduleTable, c: Cadence): Option<string> {
    if c in table then Some(table[c]) else None
  }

  /** Whether an expression (possibly missing) can be parsed into a cron time. */
  predicate Parses(env: TimeEnv, expression: Option<string>) {
    expression.Some? && env.nextFire(expression.value).Some?
  }

  /** `shouldRunNow(scheduleType, schedule, lastRunTime, timezone)` */
  function ShouldRunNow(c: Cadence, table: ScheduleTable, lastRun: Option<int>, zone: string, env: TimeEnv)
    : (r: Result<bool, Error>)
    ensures lastRun.None? ==> r == Ok(false)
    ensures r.Err? <==> lastRun.Some? && !Parses(env, Lookup(table, c))
    ensures r.Err? ==> r.error == InvalidCronExpression
    ensures r == Ok(true) <==>
              (lastRun.Some? && Parses(env, Lookup(table, c))
               && lastRun.value <= DueThreshold(env, c, env.nextFire(table[c]).value, zone))
  {
    if lastRun.None? then Ok(false)
    else
      match Lookup(table, c)
      case None => Err(InvalidCronExpression)
      case Some(expression) =>
        match env.nextFire(expression)
        case None => Err(InvalidCronExpression)
        case Some(next) => Ok(!(lastRun.value > DueThreshold(env, c, next, zone)))
  }

  /** Being due is monotone in the last-run time: if a last run at `later` is due, so is one at any
      earlier time, and if `earlier` is not due, no later time is. */
  lemma ShouldRunNowMonotone(c: Cadence, table: ScheduleTable, earlier: int, later: int, zone: string, env: TimeEnv)
    requires earlier <= later
    ensures ShouldRunNow(c, table, Some(later), zone, env) == Ok(true)
      ==> ShouldRunNow(c, table, Some(earlier), zone, env) == Ok(true)
    ensures ShouldRunNow(c, table, Some(earlier), zone, env) == Ok(false)
      ==> ShouldRunNow(c, table, Some(later), zone, env) == Ok(false)
  {
  }

  /** The daily cadence steps back by one millisecond, not one day: it is due only when the last
      run is at least 20 minutes and 1 ms before the next fire time. */
  lemma DailyStepsOneMillisecond(env: TimeEnv, next: int, zone: string)
    ensures DueThreshold(env, Daily, next, zone) == env.keepLocalTime(next, zone) - 1 - BufferMs
  {
    StepUnits();
  }

  /** The hourly cadence steps back exactly one hour. */
  lemma HourlyStepsOneHour(env: TimeEnv, next: int, zone: string)
    ensures DueThreshold(env, Hourly, next, zone) == env.keepLocalTime(next, zone) - IsoDate.MsPerHour - BufferMs
  {
    StepUnits();
  }

  /** A last run after the next fire time is never due, as long as the calendar steps go backwards. */
  lemma LaterThanNextFireNotDue(c: Cadence, table: ScheduleTable, lastRun: int, zone: string, env: TimeEnv)
    requires forall t, z :: env.subtractMonth(t, z) <= t
    requires forall t, z :: env.subtractWeek(t, z) <= t
    requires Parses(env, Lookup(table, c))
    requires lastRun > env.keepLocalTime(env.nextFire(table[c]).value, zone)
    ensures ShouldRunNow(c, table, Some(lastRun), zone, env) == Ok(false)
  {
  }

  /** The monthly case the scheduler test expects: a last run less than 28 days (and the buffer)
      before the next fire time read in the zone is not due, as long as stepping back a calendar
      month goes back at least 28 days. The test's last run, one month after now, is such a run:
      a monthly expression fires within a month of now, and reading it in a zone moves it by less
      than a day. */
  lemma MonthlyAheadNotDue(table: ScheduleTable, lastRun: int, zone: string, env: TimeEnv)
    requires forall t, z :: env.subtractMonth(t, z) <= t - 28 * IsoDate.MsPerDay
    requires Parses(env, Lookup(table, Monthly))
    requires lastRun > env.keepLocalTime(env.nextFire(table[Monthly]).value, zone) - 28 * IsoDate.MsPerDay - BufferMs
    ensures ShouldRunNow(Monthly, table, Some(lastRun), zone, env) == Ok(false)
  {
    StepUnits();
  }

  /** A registered periodic job: its cron expression and time zone, and the model whose retrain
      it triggers on every fire. */
  datatype CronJob = CronJob(cronTime: string, timeZone: string, modelName: string)

  /** The process-wide registry of named cron jobs. */
  class SchedulerRegistry {
    var cronJobs: map<string, CronJob>

    constructor ()
      ensures cronJobs == map[]
    {
      cronJobs := map[];
    }

    /** `addCronJob(name, job)`: refused (the registry throws) when the name is taken. */
    method AddCronJob(name: string, job: CronJob) returns (added: bool)
      modifies this
      ensures added == (name !in old(cronJobs))
      ensures cronJobs == if added then old(cronJobs)[name := job] else old(cronJobs)
    {
      added := name !in cronJobs;
      if added {
        cronJobs := cronJobs[name := job];
      }
    }

    /** `deleteCronJob(name)` on a registered name. */
    method DeleteCronJob(name: string)
      requires name in cronJobs
      modifies this
      ensures cronJobs == old(cronJobs) - {name}
    {
      cronJobs := cronJobs - {name};
    }
  }

  const RetrainPrefix: string := "retrain-"

  /** The registry key of a model's retrain job. */
  function JobKey(modelName: string): (k: string)
    ensures StartsWith(k, RetrainPrefix)
  {
    ConcatStartsWith(RetrainPrefix, modelName);
    RetrainPrefix + modelName
  }

  /** The registry after `clearRetrainJobs`. */
  function WithoutRetrainJobs(jobs: map<string, CronJob>): (r: map<string, CronJob>)
    ensures forall k :: k in r <==> k in jobs && !StartsWith(k, RetrainPrefix)
    ensures forall k :: k in r ==> r[k] == jobs[k]
  {
    map k | k in jobs && !StartsWith(k, RetrainPrefix) :: jobs[k]
  }

  /** A model definition with the time of its last successful run. */
  datatype ModelRun = ModelRun(model: ModelDef, lastRunDate: Option<int>)

  /** A run gets a job: it declares a cadence whose expression in the table can be parsed. */
  predicate Eligible(run: ModelRun, table: ScheduleTable, env: TimeEnv) {
    run.model.retrainSchedule.Some? && Parses(env, Lookup(table, run.model.retrainSchedule.value))
  }

  /** The job registered for an eligible run. */
  function JobFor(run: ModelRun, table: ScheduleTable, zone: string): CronJob
    requires run.model.retrainSchedule.Some? && run.model.retrainSchedule.value in table
  {
    CronJob(table[run.model.retrainSchedule.value], zone, run.model.name)
  }

  /** The registry after one model is processed: a job is added for an eligible run unless its key
      is already taken. */
  function RegisterRun(jobs: map<string, CronJob>, run: ModelRun, table: ScheduleTable, zone: string, env: TimeEnv)
    : (r: map<string, CronJob>)
    ensures forall k :: k in jobs ==> k in r && r[k] == jobs[k]
    ensures forall k :: k in r && k !in jobs
              ==> Eligible(run, table, env) && k == JobKey(run.model.name) && r[k] == JobFor(run, table, zone)
  {
    if Eligible(run, table, env) && JobKey(run.model.name) !in jobs
    then jobs[JobKey(run.model.name) := JobFor(run, table, zone)]
    else jobs
  }

  /** The registry after every model is processed, in order. */
  function RegisterAll(jobs: map<string, CronJob>, runs: seq<ModelRun>, table: ScheduleTable, zone: string, env: TimeEnv)
    : map<string, CronJob>
    decreases |runs|
  {
    if runs == [] then jobs
    else RegisterAll(RegisterRun(jobs, runs[0], table, zone, env), runs[1..], table, zone, env)
  }

  /** A run is behind schedule: it declares a cadence and `shouldRunNow` says true. */
  predicate Due(run: ModelRun, table: ScheduleTable, zone: string, env: TimeEnv) {
    run.model.retrainSchedule.Some?
    && ShouldRunNow(run.model.retrainSchedule.value, table, run.lastRunDate, zone, env) == Ok(true)
  }

  /** The models retrained at once, in order. */
  function CatchUps(runs: seq<ModelRun>, table: ScheduleTable, zone: string, env: TimeEnv): seq<string>
    decreases |runs|
  {
    if runs == [] then []
    else (if Due(runs[0], table, zone, env) then [runs[0].model.name] else []) + CatchUps(runs[1..], table, zone, env)
  }

  /** One run further into the list: the retrain of that run, if it is due, comes first. */
  lemma CatchUpsFrom(runs: seq<ModelRun>, i: int, table: ScheduleTable, zone: string, env: TimeEnv)
    requires 0 <= i < |runs|
    ensures CatchUps(runs[i..], table, zone, env)
         == (if Due(runs[i], table, zone, env) then [runs[i].model.name] else []) + CatchUps(runs[i + 1..], table, zone, env)
  {
    assert runs[i..][0] == runs[i] && runs[i..][1..] == runs[i + 1..];
  }

  /** A name is retrained at once exactly when some run of that name is due, and no run
      triggers more than one retrain. */
  lemma {:induction false} CatchUpsAreDue(runs: seq<ModelRun>, table: ScheduleTable, zone: string, env: TimeEnv)
    ensures |CatchUps(runs, table, zone, env)| <= |runs|
    ensures forall n :: n in CatchUps(runs, table, zone, env)
                        <==> exists i :: 0 <= i < |runs| && runs[i].model.name == n && Due(runs[i], table, zone, env)
    decreases |runs|
  {
    if runs != [] {
      var rest := CatchUps(runs[1..], table, zone, env);
      CatchUpsAreDue(runs[1..], table, zone, env);
      forall n | n in CatchUps(runs, table, zone, env)
        ensures exists i :: 0 <= i < |runs| && runs[i].model.name == n && Due(runs[i], table, zone, env)
      {
        if n in rest {
          var j :| 0 <= j < |runs[1..]| && runs[1..][j].model.name == n && Due(runs[1..][j], table, zone, env);
          assert runs[j + 1] == runs[1..][j];
        } else {
          assert runs[0].model.name == n && Due(runs[0], table, zone, env);
        }
      }
      forall n | exists i :: 0 <= i < |runs| && runs[i].model.name == n && Due(runs[i], table, zone, env)
        ensures n in CatchUps(runs, table, zone, env)
      {
        var i :| 0 <= i < |runs| && runs[i].model.name == n && Due(runs[i], table, zone, env);
        if i > 0 {
          assert runs[1..][i - 1] == runs[i];
        }
      }
    }
  }

  /** The keys of eligible runs. */
  function EligibleKeys(runs: seq<ModelRun>, table: ScheduleTable, env: TimeEnv): set<string> {
    set i | 0 <= i < |runs| && Eligible(runs[i], table, env) :: JobKey(runs[i].model.name)
  }

  /** Registering adds exactly the keys of the eligible runs and keeps every existing entry. */
  lemma {:induction false} RegisterAllKeys(jobs: map<string, CronJob>, runs: seq<ModelRun>, table: ScheduleTable, zone: string, env: TimeEnv)
    ensures RegisterAll(jobs, runs, table, zone, env).Keys == jobs.Keys + EligibleKeys(runs, table, env)
    ensures forall k :: k in jobs ==> RegisterAll(jobs, runs, table, zone, env)[k] == jobs[k]
    decreases |runs|
  {
    if runs != [] {
      var next := RegisterRun(jobs, runs[0], table, zone, env);
      RegisterAllKeys(next, runs[1..], table, zone, env);
      var tail := EligibleKeys(runs[1..], table, env);
      var here := if Eligible(runs[0], table, env) then {JobKey(runs[0].model.name)} else {};
      assert EligibleKeys(runs, table, env) == here + tail by {
        forall k | k in EligibleKeys(runs, table, env) ensures k in here + tail {
          var i :| 0 <= i < |runs| && Eligible(runs[i], table, env) && k == JobKey(runs[i].model.name);
          if i > 0 {
            assert runs[1..][i - 1] == runs[i];
          }
        }
        forall k | k in tail ensures k in EligibleKeys(runs, table, env) {
          var i :| 0 <= i < |runs[1..]| && Eligible(runs[1..][i], table, env) && k == JobKey(runs[1..][i].model.name);
          assert runs[i + 1] == runs[1..][i];
        }
      }
    }
  }

  /** The job under a model's key comes from the first eligible run with that name, provided
      the key was free to begin with. */
  lemma {:induction false} RegisterAllFirstWins(jobs: map<string, CronJob>, runs: seq<ModelRun>, i: int,
                                                table: ScheduleTable, zone: string, env: TimeEnv)
    requires 0 <= i < |runs| && Eligible(runs[i], table, env)
    requires JobKey(runs[i].model.name) !in jobs
    requires forall j :: 0 <= j < i && Eligible(runs[j], table, env) ==> runs[j].model.name != runs[i].model.name
    ensures JobKey(runs[i].model.name) in RegisterAll(jobs, runs, table, zone, env)
    ensures RegisterAll(jobs, runs, table, zone, env)[JobKey(runs[i].model.name)] == JobFor(runs[i], table, zone)
    decreases i
  {
    RegisterAllKeys(jobs, runs, table, zone, env);
    var next := RegisterRun(jobs, runs[0], table, zone, env);
    if i == 0 {
      RegisterAllKeys(next, runs[1..], table, zone, env);
    } else {
      assert runs[0].model.name != runs[i].model.name ==> JobKey(runs[0].model.name) != JobKey(runs[i].model.name) by {
        if JobKey(runs[0].model.name) == JobKey(runs[i].model.name) {
          assert runs[0].model.name == JobKey(runs[0].model.name)[|RetrainPrefix|..];
          assert runs[i].model.name == JobKey(runs[i].model.name)[|RetrainPrefix|..];
        }
      }
      forall j | 0 <= j < i - 1 && Eligible(runs[1..][j], table, env)
        ensures runs[1..][j].model.name != runs[1..][i - 1].model.name
      {
        assert runs[1..][j] == runs[j + 1];
      }
      RegisterAllFirstWins(next, runs[1..], i - 1, table, zone, env);
    }
  }

  /** Rebuilding clears what the previous rebuild registered: clearing after registering gives back
      the cleared registry, so repeating a resync with the same inputs changes nothing. */
  lemma ResyncIdempotent(jobs: map<string, CronJob>, runs: seq<ModelRun>, table: ScheduleTable, zone: string, env: TimeEnv)
    ensures WithoutRetrainJobs(RegisterAll(WithoutRetrainJobs(jobs), runs, table, zone, env)) == WithoutRetrainJobs(jobs)
  {
    var cleared := WithoutRetrainJobs(jobs);
    var registered := RegisterAll(cleared, runs, table, zone, env);
    RegisterAllKeys(cleared, runs, table, zone, env);
    forall k | k in EligibleKeys(runs, table, env) ensures StartsWith(k, RetrainPrefix) {
      var i :| 0 <= i < |runs| && Eligible(runs[i], table, env) && k == JobKey(runs[i].model.name);
    }
  }

  /** `RetrainJobService`: the default schedule table and the registry it manages. */
  class RetrainJobService {
    var schedule: ScheduleTable
    const registry: SchedulerRegistry

    constructor (registry: SchedulerRegistry)
      ensures this.registry == registry
      ensures schedule == DefaultSchedule()
    {
      this.registry := registry;
      schedule := map[];
      new;
      schedule := schedule[Monthly := "0 4 1 * *"];
      schedule := schedule[Weekly := "0 4 * * 0"];
      schedule := schedule[Daily := "0 4 * * *"];
      schedule := schedule[Hourly := "0 * * * *"];
    }

    /** `clearRetrainJobs()`: deletes every job whose name starts with "retrain-", keeps the rest. */
    method ClearRetrainJobs()
      modifies registry
      ensures registry.cronJobs == WithoutRetrainJobs(old(registry.cronJobs))
    {
      var jobNames := registry.cronJobs.Keys;
      while jobNames != {}
        invariant jobNames <= old(registry.cronJobs).Keys
        invariant registry.cronJobs == map k | k in old(registry.cronJobs)
                                                && (k in jobNames || !StartsWith(k, RetrainPrefix)) :: old(registry.cronJobs)[k]
        decreases jobNames
      {
        var jobName :| jobName in jobNames;
        if StartsWith(jobName, RetrainPrefix) {
          registry.DeleteCronJob(jobName);
        }
        jobNames := jobNames - {jobName};
      }
    }

    /** `scheduleRetrainTask(modelName, cronExpression, triggeredFunction, timezone)`: a started
        job under "retrain-<name>"; nothing when the expression does not parse (the job
        constructor throws) or the name is taken (the registry throws). */
    method ScheduleRetrainTask(modelName: string, cronExpression: Option<string>, zone: Option<string>, env: TimeEnv)
      modifies registry
      ensures registry.cronJobs ==
        if Parses(env, cronExpression) && JobKey(modelName) !in old(registry.cronJobs)
        then old(registry.cronJobs)[JobKey(modelName) := CronJob(cronExpression.value, zone.GetOr("UTC"), modelName)]
        else old(registry.cronJobs)
    {
      if Parses(env, cronExpression) {
        var job := CronJob(cronExpression.value, zone.GetOr("UTC"), modelName);
        var _ := registry.AddCronJob(JobKey(modelName), job);
      }
    }

    /**
     * `scheduleModelUpdates(modelDetails, triggeredFunction, timezone, scheduleOverride)`.
     * Returns the models whose retrain was triggered at once. Whether a triggered retrain fails
     * does not matter: the failure is caught and the job is registered all the same.
     */
    method ScheduleModelUpdates(runs: seq<ModelRun>, zone: Option<string>, scheduleOverride: Option<ScheduleTable>, env: TimeEnv)
      returns (triggered: seq<string>)
      modifies registry
      ensures registry.cronJobs == RegisterAll(WithoutRetrainJobs(old(registry.cronJobs)), runs,
                                               scheduleOverride.GetOr(schedule), zone.GetOr("UTC"), env)
      ensures triggered == CatchUps(runs, scheduleOverride.GetOr(schedule), zone.GetOr("UTC"), env)
    {
      ClearRetrainJobs();
      var table := scheduleOverride.GetOr(schedule);
      var tz := zone.GetOr("UTC");
      ghost var cleared := registry.cronJobs;
      triggered := [];
      var i := 0;
      while i < |runs|
        invariant 0 <= i <= |runs|
        invariant RegisterAll(registry.cronJobs, runs[i..], table, tz, env) == RegisterAll(cleared, runs, table, tz, env)
        invariant triggered + CatchUps(runs[i..], table, tz, env) == CatchUps(runs, table, tz, env)
      {
        var run := runs[i];
        assert runs[i..][0] == run && runs[i..][1..] == runs[i + 1..];
        CatchUpsFrom(runs, i, table, tz, env);
        if run.model.retrainSchedule.Some? {
          var cadence := run.model.retrainSchedule.value;
          var due := ShouldRunNow(cadence, table, run.lastRunDate, tz, env);
          if due.Ok? {
            if due.value {
              triggered := triggered + [run.model.name];
            }
            ScheduleRetrainTask(run.model.name, Lookup(table, cadence), zone, env);
          }
        }
        i := i + 1;
      }
      assert runs[|runs|..] == [];
    }
  }
}
