/** The service calls on jobs, each run on its own: what they write is what the transition system
    lets a service call write, and a call that fails writes nothing. */
module JobService {
  import opened Options
  import opened ResourceIds
  import opened JobConfigs
  import opened JobMasks
  import opened JobRows
  import opened SchedulerSystem

  datatype Answer = OK | NOT_FOUND | ALREADY_EXISTS | INVALID

  predicate ValidJobName(s: string) { MatchesId(s, 500) }

  lemma JobNamesAre(s: string)
    ensures ValidJobName(s) <==> 1 <= |s| <= 500 && forall i :: 0 <= i < |s| ==> IdCode(s[i] as int)
  {
  }

  function ResourceName(project: string, location: string, name: string): string {
    "projects/" + project + "/locations/" + location + "/jobs/" + name
  }

  /** A job's name can be read off its id. */
  lemma NameOfResource(project: string, location: string, name: string)
    requires ValidJobName(name)
    ensures LastPart(ResourceName(project, location, name)) == name
  {
    IdHasNoSlash(name, 500);
    var prefix := "projects/" + project + "/locations/" + location + "/jobs";
    assert ResourceName(project, location, name) == prefix + "/" + name;
    LastPartOf(prefix, name);
  }

  class Service {
    const repo: JobRepository
    const cron: Cron
    const parses: (string, string, string) -> bool

    /** Every stored job has a valid name. */
    ghost predicate Named()
      reads repo
    {
      forall id :: id in repo.rows ==> ValidJobName(LastPart(id))
    }

    constructor (repo: JobRepository, cron: Cron, parses: (string, string, string) -> bool)
      ensures this.repo == repo && this.cron == cron && this.parses == parses
    {
      this.repo, this.cron, this.parses := repo, cron, parses;
    }

    function World(): World { SchedulerSystem.World(cron, StorableBy(parses)) }

    /** The scheduler's state as a call at time `now` reads it. */
    function Seen(now: int): State
      reads repo
    {
      Boot(now).(jobs := repo.rows)
    }

    /** The configuration passes validation and, for an enabled job, has a next run. */
    predicate Writable(c: JobConfig, state: JobState, now: int) {
      Valid(c, parses) && (state == Enabled ==> cron(Stored(c), now).Some?)
    }

    /** Service.Create. */
    method Create(project: string, location: string, name: string, given: JobConfig, state: JobState, now: int)
      returns (r: Answer)
      requires Named()
      modifies repo
      ensures Named()
      ensures r == if !ValidJobName(name) || !Writable(ApplyDefaults(given), state, now) then INVALID
                   else if "projects/" + project + "/locations/" + location + "/jobs/" + name in old(repo.rows)
                   then ALREADY_EXISTS else OK
      ensures r == OK ==> exists job ::
                var id := "projects/" + project + "/locations/" + location + "/jobs/" + name;
                && MayWrite(World(), old(Seen(now)), SchedulerSystem.Create(id, job))
                && repo.rows == old(repo.rows)[id := job]
                && job.state == state && job.config == Stored(ApplyDefaults(given))
      ensures r != OK ==> repo.rows == old(repo.rows)
    {
      var c := ApplyDefaults(given);
      if !ValidJobName(name) || !Valid(c, parses) {
        return INVALID;
      }
      StoredStaysValid(c, parses);
      StoringTwice(c);
      var next := 0;
      if state == Enabled {
        var n := cron(Stored(c), now);
        if n.None? {
          return INVALID;
        }
        next := n.value;
      }
      var id, job := ResourceName(project, location, name), Job(Stored(c), state, next, 0, 0);
      NameOfResource(project, location, name);
      assert MayWrite(World(), Seen(now), SchedulerSystem.Create(id, job));
      var created := repo.CreateJob(id, job);
      if !created {
        return ALREADY_EXISTS;
      }
      return OK;
    }

    method Pause(id: JobId) returns (r: Answer)
      requires Named()
      modifies repo
      ensures Named()
      ensures r == if id in old(repo.rows) then OK else NOT_FOUND
      ensures repo.rows == if r == OK then old(repo.rows)[id := old(repo.rows)[id].(state := Paused, nextRun := 0)]
                           else old(repo.rows)
    {
      var found := repo.SetJobState(id, Paused, 0);
      return if found then OK else NOT_FOUND;
    }

    method Resume(id: JobId, now: int) returns (r: Answer)
      requires Named()
      modifies repo
      ensures Named()
      ensures r == if id !in old(repo.rows) then NOT_FOUND
                   else if cron(old(repo.rows)[id].config, now).None? then INVALID else OK
      ensures r == OK ==> var x := PutState(id, Enabled, cron(old(repo.rows)[id].config, now).value);
                          MayWrite(World(), old(Seen(now)), x)
                          && repo.rows == old(repo.rows)[id := old(repo.rows)[id].(state := Enabled, nextRun := x.next)]
      ensures r != OK ==> repo.rows == old(repo.rows)
    {
      if id !in repo.rows {
        return NOT_FOUND;
      }
      var n := cron(repo.rows[id].config, now);
      if n.None? {
        return INVALID;
      }
      var found := repo.SetJobState(id, Enabled, n.value);
      return OK;
    }

    /** Service.Update: state, identity and attempt columns keep their values; an unsupported mask
        path, an invalid result or a schedule without a next run writes nothing. */
    method Update(id: JobId, patch: JobConfig, paths: seq<string>, now: int) returns (r: Answer)
      requires Named()
      modifies repo
      ensures Named()
      ensures r == if id !in old(repo.rows) then NOT_FOUND
                   else if paths != [] && !Supported(Lookup(paths)) then INVALID
                   else if !Writable(ApplyDefaults(Mix(old(repo.rows)[id].config, patch, Selected(patch, paths))),
                                     old(repo.rows)[id].state, now) then INVALID
                   else OK
      ensures r == OK ==> exists config, next ::
                var row := old(repo.rows)[id];
                && MayWrite(World(), old(Seen(now)), PutConfig(id, config, row.state, next))
                && config == Stored(ApplyDefaults(Mix(row.config, patch, Selected(patch, paths))))
                && repo.rows == old(repo.rows)[id := row.(config := config, nextRun := next)]
      ensures r != OK ==> repo.rows == old(repo.rows)
    {
      if id !in repo.rows {
        return NOT_FOUND;
      }
      var row := repo.rows[id];
      var config := PrepareUpdate(row.config, patch, paths, parses);
      if config.None? || !ValidJobName(LastPart(id)) {
        return INVALID;
      }
      var next := row.nextRun;
      if row.state == Enabled {
        var n := cron(config.value, now);
        if n.None? {
          return INVALID;
        }
        next := n.value;
      }
      assert MayWrite(World(), Seen(now), PutConfig(id, config.value, row.state, next));
      var found := repo.UpdateJob(id, config.value, row.state, next);
      return OK;
    }
  }
}
