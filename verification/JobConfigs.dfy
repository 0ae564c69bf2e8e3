/** A scheduler job's configuration: update masks, defaults, validation, and what storing
    durations in whole milliseconds does to them. */
module JobConfigs {
  import opened Options
  import opened Backoffs

  const SECOND: int := 1_000_000_000
  const MILLISECOND: int := 1_000_000

  /** The mutable configuration of a job; durations are nanoseconds. */
  datatype JobConfig = JobConfig(description: string, schedule: string, timeZone: string,
                                 url: string, httpMethod: string, headers: Option<map<string, string>>,
                                 body: Option<string>, attemptDeadline: int, retry: RetryConfig)

  /** The fields an update mask can name, and their values. */
  datatype Field = Description | Schedule | TimeZone | Url | HttpMethod | Headers | Body | AttemptDeadline
                 | RetryCount | MaxRetryDuration | MinBackoff | MaxBackoff | MaxDoublings

  datatype Value =
    | Text(text: string)
    | Map(entries: Option<map<string, string>>)
    | Bytes(bytes: Option<string>)
    | Number(number: int)

  function Get(c: JobConfig, f: Field): Value {
    match f
    case Description => Text(c.description)
    case Schedule => Text(c.schedule)
    case TimeZone => Text(c.timeZone)
    case Url => Text(c.url)
    case HttpMethod => Text(c.httpMethod)
    case Headers => Map(c.headers)
    case Body => Bytes(c.body)
    case AttemptDeadline => Number(c.attemptDeadline)
    case RetryCount => Number(c.retry.retryCount)
    case MaxRetryDuration => Number(c.retry.maxRetryDuration)
    case MinBackoff => Number(c.retry.minBackoff)
    case MaxBackoff => Number(c.retry.maxBackoff)
    case MaxDoublings => Number(c.retry.maxDoublings)
  }

  /** The fields are all there is to a configuration. */
  lemma FieldsDetermine(a: JobConfig, b: JobConfig)
    requires forall f :: Get(a, f) == Get(b, f)
    ensures a == b
  {
    assert Get(a, Description) == Get(b, Description) && Get(a, Schedule) == Get(b, Schedule);
    assert Get(a, TimeZone) == Get(b, TimeZone) && Get(a, Url) == Get(b, Url);
    assert Get(a, HttpMethod) == Get(b, HttpMethod) && Get(a, Headers) == Get(b, Headers);
    assert Get(a, Body) == Get(b, Body) && Get(a, AttemptDeadline) == Get(b, AttemptDeadline);
    assert Get(a, RetryCount) == Get(b, RetryCount) && Get(a, MaxRetryDuration) == Get(b, MaxRetryDuration);
    assert Get(a, MinBackoff) == Get(b, MinBackoff) && Get(a, MaxBackoff) == Get(b, MaxBackoff);
    assert Get(a, MaxDoublings) == Get(b, MaxDoublings);
  }

  // ---------------------------------------------------------------- mask paths

  predicate IsUpper(ch: char) { 'A' <= ch <= 'Z' }

  function ToLower(ch: char): char { if IsUpper(ch) then ch - 'A' + 'a' else ch }

  /** camelCase to snake_case. */
  function SnakeOf(p: string): string {
    if p == [] then []
    else
      var init, last := p[..|p| - 1], p[|p| - 1];
      SnakeOf(init) + (if IsUpper(last) && init != [] then ['_', ToLower(last)] else [ToLower(last)])
  }

  method Snake(p: string) returns (s: string)
    ensures s == SnakeOf(p)
  {
    s := [];
    for i := 0 to |p|
      invariant s == SnakeOf(p[..i])
    {
      assert p[..i + 1][..i] == p[..i];
      var ch := p[i];
      if IsUpper(ch) {
        if i > 0 {
          s := s + ['_'];
        }
        ch := ToLower(ch);
      }
      s := s + [ch];
    }
    assert p[..|p|] == p;
  }

  predicate NoUpper(p: string) { forall i :: 0 <= i < |p| ==> !IsUpper(p[i]) }

  lemma {:induction false} SnakeHasNoUpper(p: string)
    ensures NoUpper(SnakeOf(p))
  {
    if p != [] {
      SnakeHasNoUpper(p[..|p| - 1]);
    }
  }

  lemma {:induction false} SnakeKeeps(p: string)
    requires NoUpper(p)
    ensures SnakeOf(p) == p
  {
    if p != [] {
      SnakeKeeps(p[..|p| - 1]);
      assert p == p[..|p| - 1] + [p[|p| - 1]];
    }
  }

  /** A path that is already in snake case is kept, so both spellings of a path mean the same. */
  lemma SnakeIsIdempotent(p: string)
    ensures SnakeOf(SnakeOf(p)) == SnakeOf(p)
  {
    SnakeHasNoUpper(p);
    SnakeKeeps(SnakeOf(p));
  }

  /** The mask paths, and the config fields each one covers. */
  function Covers(path: string): Option<set<Field>> {
    if path == "description" then Some({Description})
    else if path == "schedule" then Some({Schedule})
    else if path == "time_zone" then Some({TimeZone})
    else if path == "attempt_deadline" then Some({AttemptDeadline})
    else if path == "http_target" then Some({Url, HttpMethod, Headers, Body})
    else if path == "http_target.uri" then Some({Url})
    else if path == "http_target.http_method" then Some({HttpMethod})
    else if path == "http_target.headers" then Some({Headers})
    else if path == "http_target.body" then Some({Body})
    else RetryCovers(path)
  }

  function RetryCovers(path: string): Option<set<Field>> {
    if path == "retry_config" then Some({RetryCount, MaxRetryDuration, MinBackoff, MaxBackoff, MaxDoublings})
    else if path == "retry_config.retry_count" then Some({RetryCount})
    else if path == "retry_config.max_retry_duration" then Some({MaxRetryDuration})
    else if path == "retry_config.min_backoff_duration" then Some({MinBackoff})
    else if path == "retry_config.max_backoff_duration" then Some({MaxBackoff})
    else if path == "retry_config.max_doublings" then Some({MaxDoublings})
    else None
  }

  /** The assignment a path stands for. */
  method Assign(job: JobConfig, patch: JobConfig, path: string) returns (r: Option<JobConfig>)
    ensures r.None? <==> Covers(path).None?
    ensures r.Some? ==> forall f :: Get(r.value, f) == Get(if f in Covers(path).value then patch else job, f)
  {
    if path == "description" { return Some(job.(description := patch.description)); }
    if path == "schedule" { return Some(job.(schedule := patch.schedule)); }
    if path == "time_zone" { return Some(job.(timeZone := patch.timeZone)); }
    if path == "attempt_deadline" { return Some(job.(attemptDeadline := patch.attemptDeadline)); }
    if path == "http_target" {
      return Some(job.(url := patch.url, httpMethod := patch.httpMethod, headers := patch.headers, body := patch.body));
    }
    if path == "http_target.uri" { return Some(job.(url := patch.url)); }
    if path == "http_target.http_method" { return Some(job.(httpMethod := patch.httpMethod)); }
    if path == "http_target.headers" { return Some(job.(headers := patch.headers)); }
    if path == "http_target.body" { return Some(job.(body := patch.body)); }
    r := AssignRetry(job, patch, path);
  }

  /** The paths of the retry config. */
  method AssignRetry(job: JobConfig, patch: JobConfig, path: string) returns (r: Option<JobConfig>)
    ensures r.None? <==> RetryCovers(path).None?
    ensures r.Some? ==> forall f :: Get(r.value, f) == Get(if f in RetryCovers(path).value then patch else job, f)
  {
    var mine, theirs := job.retry, patch.retry;
    if path == "retry_config" { return Some(job.(retry := theirs)); }
    if path == "retry_config.retry_count" { return Some(job.(retry := mine.(retryCount := theirs.retryCount))); }
    if path == "retry_config.max_retry_duration" {
      return Some(job.(retry := mine.(maxRetryDuration := theirs.maxRetryDuration)));
    }
    if path == "retry_config.min_backoff_duration" {
      return Some(job.(retry := mine.(minBackoff := theirs.minBackoff)));
    }
    if path == "retry_config.max_backoff_duration" {
      return Some(job.(retry := mine.(maxBackoff := theirs.maxBackoff)));
    }
    if path == "retry_config.max_doublings" { return Some(job.(retry := mine.(maxDoublings := theirs.maxDoublings))); }
    return None;
  }

  // ---------------------------------------------------------------- applyPatch

  /** The ASCII white space that strings.TrimSpace removes. */
  predicate IsSpace(ch: char) { ch == ' ' || '\t' <= ch <= '\r' }

  function Trim(p: string): string {
    if p == [] then p
    else if IsSpace(p[0]) then Trim(p[1..])
    else if IsSpace(p[|p| - 1]) then Trim(p[..|p| - 1])
    else p
  }

  /** A mask entry as it is looked up. */
  function PathOf(raw: string): string { SnakeOf(Trim(raw)) }

  function FieldsOf(raw: string): Option<set<Field>> { Covers(PathOf(raw)) }

  /** What each entry of a mask covers; None for an unsupported path. */
  function Lookup(paths: seq<string>): seq<Option<set<Field>>> {
    seq(|paths|, i requires 0 <= i < |paths| => FieldsOf(paths[i]))
  }

  predicate Supported(found: seq<Option<set<Field>>>) {
    forall i :: 0 <= i < |found| ==> found[i].Some?
  }

  /** The fields covered by the supported paths. */
  function Covered(found: seq<Option<set<Field>>>): set<Field> {
    if found == [] then {}
    else
      var last := found[|found| - 1];
      Covered(found[..|found| - 1]) + if last.Some? then last.value else {}
  }

  /** The configuration that takes the fields in `fields` from the patch and the rest from the job. */
  function Mix(job: JobConfig, patch: JobConfig, fields: set<Field>): JobConfig {
    JobConfig((if Description in fields then patch else job).description,
              (if Schedule in fields then patch else job).schedule,
              (if TimeZone in fields then patch else job).timeZone,
              (if Url in fields then patch else job).url,
              (if HttpMethod in fields then patch else job).httpMethod,
              (if Headers in fields then patch else job).headers,
              (if Body in fields then patch else job).body,
              (if AttemptDeadline in fields then patch else job).attemptDeadline,
              RetryConfig((if RetryCount in fields then patch else job).retry.retryCount,
                          (if MaxRetryDuration in fields then patch else job).retry.maxRetryDuration,
                          (if MinBackoff in fields then patch else job).retry.minBackoff,
                          (if MaxBackoff in fields then patch else job).retry.maxBackoff,
                          (if MaxDoublings in fields then patch else job).retry.maxDoublings))
  }

  lemma MixTakes(job: JobConfig, patch: JobConfig, fields: set<Field>, f: Field)
    ensures Get(Mix(job, patch, fields), f) == Get(if f in fields then patch else job, f)
  {
  }

  /** A field is covered exactly when some path of the mask covers it. */
  lemma {:induction false} CoveredBySome(found: seq<Option<set<Field>>>, f: Field)
    ensures f in Covered(found) <==> exists i :: 0 <= i < |found| && found[i].Some? && f in found[i].value
  {
    if found != [] {
      var init := found[..|found| - 1];
      CoveredBySome(init, f);
      if f in Covered(init) {
        var i :| 0 <= i < |init| && init[i].Some? && f in init[i].value;
        assert found[i] == init[i];
      }
      if i :| 0 <= i < |found| && found[i].Some? && f in found[i].value {
        assert i < |init| ==> init[i] == found[i];
      }
    }
  }

  lemma CoveredSubset(a: seq<Option<set<Field>>>, b: seq<Option<set<Field>>>)
    requires forall i :: 0 <= i < |a| ==> a[i] in b
    ensures Covered(a) <= Covered(b) && (Supported(b) ==> Supported(a))
  {
    forall f | f in Covered(a) ensures f in Covered(b) {
      CoveredBySome(a, f);
      CoveredBySome(b, f);
      var i :| 0 <= i < |a| && a[i].Some? && f in a[i].value;
      var j :| 0 <= j < |b| && b[j] == a[i];
    }
  }

  ghost function PathSet(paths: seq<string>): set<string> { set i | 0 <= i < |paths| :: PathOf(paths[i]) }

  lemma SameEntries(a: seq<string>, b: seq<string>, i: nat)
    requires PathSet(a) <= PathSet(b) && i < |a|
    ensures Lookup(a)[i] in Lookup(b)
  {
    assert PathOf(a[i]) in PathSet(b);
    var j :| 0 <= j < |b| && PathOf(b[j]) == PathOf(a[i]);
    assert Lookup(b)[j] == Lookup(a)[i];
  }

  /** A masked patch depends only on the set of normalised paths: order, repetition and spelling
      make no difference. */
  lemma MaskIsASet(a: seq<string>, b: seq<string>)
    requires PathSet(a) == PathSet(b)
    ensures Supported(Lookup(a)) <==> Supported(Lookup(b))
    ensures Covered(Lookup(a)) == Covered(Lookup(b))
  {
    var fa, fb := Lookup(a), Lookup(b);
    forall i | 0 <= i < |fa| ensures fa[i] in fb {
      SameEntries(a, b, i);
    }
    forall i | 0 <= i < |fb| ensures fb[i] in fa {
      SameEntries(b, a, i);
    }
    CoveredSubset(fa, fb);
    CoveredSubset(fb, fa);
  }

  predicate IsZero(v: Value) { v == Text("") || v == Map(None) || v == Bytes(None) || v == Number(0) }

  /** With an empty mask, every non-zero field of the patch. */
  ghost function NonZero(patch: JobConfig): set<Field> {
    set f: Field | !IsZero(Get(patch, f))
  }

  datatype PatchResult = Patched(config: JobConfig) | Unsupported(path: string)

  /** Each field of the patch that is set replaces the job's. */
  function Overlay(job: JobConfig, patch: JobConfig): JobConfig {
    JobConfig(if patch.description != "" then patch.description else job.description,
              if patch.schedule != "" then patch.schedule else job.schedule,
              if patch.timeZone != "" then patch.timeZone else job.timeZone,
              if patch.url != "" then patch.url else job.url,
              if patch.httpMethod != "" then patch.httpMethod else job.httpMethod,
              if patch.headers.Some? then patch.headers else job.headers,
              if patch.body.Some? then patch.body else job.body,
              if patch.attemptDeadline != 0 then patch.attemptDeadline else job.attemptDeadline,
              RetryConfig(if patch.retry.retryCount != 0 then patch.retry.retryCount else job.retry.retryCount,
                          if patch.retry.maxRetryDuration != 0 then patch.retry.maxRetryDuration
                          else job.retry.maxRetryDuration,
                          if patch.retry.minBackoff != 0 then patch.retry.minBackoff else job.retry.minBackoff,
                          if patch.retry.maxBackoff != 0 then patch.retry.maxBackoff else job.retry.maxBackoff,
                          if patch.retry.maxDoublings != 0 then patch.retry.maxDoublings else job.retry.maxDoublings))
  }

  lemma OverlayTakes(job: JobConfig, patch: JobConfig, f: Field)
    ensures Get(Overlay(job, patch), f) == Get(if IsZero(Get(patch, f)) then job else patch, f)
  {
    match f
    case Description =>
    case Schedule =>
    case TimeZone =>
    case Url =>
    case HttpMethod =>
    case _ =>
  }

  lemma OverlayIsMix(job: JobConfig, patch: JobConfig)
    ensures Overlay(job, patch) == Mix(job, patch, NonZero(patch))
  {
    var a, b := Overlay(job, patch), Mix(job, patch, NonZero(patch));
    forall f ensures Get(a, f) == Get(b, f) {
      MixTakes(job, patch, NonZero(patch), f);
      OverlayTakes(job, patch, f);
    }
    FieldsDetermine(a, b);
  }

  /** The path at which the mask fails. */
  ghost predicate FirstUnsupported(paths: seq<string>, path: string) {
    exists n :: 0 <= n < |paths| && path == paths[n] && Supported(Lookup(paths)[..n]) && FieldsOf(paths[n]).None?
  }

  /** applyPatch with a mask. */
  method ApplyMask(job: JobConfig, patch: JobConfig, paths: seq<string>) returns (r: PatchResult)
    ensures r.Patched? <==> Supported(Lookup(paths))
    ensures r.Patched? ==> r.config == Mix(job, patch, Covered(Lookup(paths)))
    ensures r.Unsupported? ==> FirstUnsupported(paths, r.path)
  {
    var c := job;
    MixNone(job, patch);
    for n := 0 to |paths|
      invariant Supported(Lookup(paths)[..n]) && c == Mix(job, patch, Covered(Lookup(paths)[..n]))
    {
      var path := Snake(Trim(paths[n]));
      var step := Assign(c, patch, path);
      assert Lookup(paths)[n] == FieldsOf(paths[n]);
      if step.None? {
        return Unsupported(paths[n]);
      }
      CoveredStep(Lookup(paths), n);
      MixMore(job, patch, Covered(Lookup(paths)[..n]), FieldsOf(paths[n]).value, c, step.value);
      c := step.value;
    }
    assert Lookup(paths)[..|paths|] == Lookup(paths);
    return Patched(c);
  }

  lemma MixNone(job: JobConfig, patch: JobConfig)
    ensures Mix(job, patch, {}) == job
  {
  }

  lemma CoveredStep(found: seq<Option<set<Field>>>, n: nat)
    requires n < |found| && Supported(found[..n]) && found[n].Some?
    ensures Supported(found[..n + 1]) && Covered(found[..n + 1]) == Covered(found[..n]) + found[n].value
  {
    var grown := found[..n + 1];
    assert grown[..n] == found[..n] && grown[n] == found[n];
    forall i | 0 <= i < |grown| ensures grown[i].Some? {
      assert i < n ==> grown[i] == found[..n][i];
    }
  }

  lemma MixMore(job: JobConfig, patch: JobConfig, fields: set<Field>, more: set<Field>, c: JobConfig, c': JobConfig)
    requires c == Mix(job, patch, fields)
    requires forall f :: Get(c', f) == Get(if f in more then patch else c, f)
    ensures c' == Mix(job, patch, fields + more)
  {
    forall f ensures Get(c', f) == Get(Mix(job, patch, fields + more), f) {
      MixTakes(job, patch, fields, f);
      MixTakes(job, patch, fields + more, f);
    }
    FieldsDetermine(c', Mix(job, patch, fields + more));
  }

  // ---------------------------------------------------------------- defaults, validation, storage

  function Upper(ch: char): char { if 'a' <= ch <= 'z' then ch - 'a' + 'A' else ch }

  function ToUpper(p: string): string { seq(|p|, i requires 0 <= i < |p| => Upper(p[i])) }

  const METHODS: set<string> := {"POST", "GET", "HEAD", "PUT", "DELETE", "PATCH", "OPTIONS"}

  function Or(x: int, default: int): int { if x == 0 then default else x }

  function ApplyDefaults(c: JobConfig): JobConfig {
    c.(timeZone := if c.timeZone == "" then "UTC" else c.timeZone,
       httpMethod := ToUpper(if c.httpMethod == "" then "POST" else c.httpMethod),
       attemptDeadline := Or(c.attemptDeadline, 180 * SECOND),
       retry := c.retry.(minBackoff := Or(c.retry.minBackoff, 5 * SECOND),
                         maxBackoff := Or(c.retry.maxBackoff, 3600 * SECOND),
                         maxDoublings := Or(c.retry.maxDoublings, 5)))
  }

  predicate ValidRetry(r: RetryConfig) {
    && r.retryCount >= 0 && r.maxRetryDuration >= 0 && r.maxDoublings >= 0
    && 0 <= r.minBackoff <= r.maxBackoff
  }

  /** Validate; `parses` stands for the cron, time zone and URL parsers. */
  predicate Valid(c: JobConfig, parses: (string, string, string) -> bool) {
    && |c.description| <= 500
    && parses(c.schedule, c.timeZone, c.url)
    && c.httpMethod in METHODS
    && 15 * SECOND <= c.attemptDeadline <= 1800 * SECOND
    && ValidRetry(c.retry)
  }

  /** Duration.Milliseconds, which truncates towards zero, and back to a duration. */
  function ToMillis(d: int): int { if d >= 0 then d / MILLISECOND else -((-d) / MILLISECOND) }
  function Kept(d: int): int { ToMillis(d) * MILLISECOND }

  /** The configuration that is read back after it has been stored. */
  function Stored(c: JobConfig): JobConfig {
    c.(headers := if c.headers == Some(map[]) then None else c.headers,
       attemptDeadline := Kept(c.attemptDeadline),
       retry := c.retry.(maxRetryDuration := Kept(c.retry.maxRetryDuration),
                         minBackoff := Kept(c.retry.minBackoff), maxBackoff := Kept(c.retry.maxBackoff)))
  }

  lemma KeptMonotone(d: int, e: int)
    requires 0 <= d <= e
    ensures 0 <= Kept(d) <= Kept(e) <= e
  {
    assert d / MILLISECOND <= e / MILLISECOND;
  }

  /** A validated configuration is still valid after the millisecond truncation of its durations. */
  lemma StoredStaysValid(c: JobConfig, parses: (string, string, string) -> bool)
    requires Valid(c, parses)
    ensures Valid(Stored(c), parses)
  {
    KeptMonotone(c.retry.minBackoff, c.retry.maxBackoff);
    KeptMonotone(0, c.retry.maxRetryDuration);
    KeptMonotone(15 * SECOND, c.attemptDeadline);
    assert Kept(15 * SECOND) == 15 * SECOND;
    KeptMonotone(c.attemptDeadline, 1800 * SECOND);
  }

  lemma StoringTwice(c: JobConfig)
    ensures Stored(Stored(c)) == Stored(c)
  {
    KeptTwice(c.attemptDeadline);
    KeptTwice(c.retry.maxRetryDuration);
    KeptTwice(c.retry.minBackoff);
    KeptTwice(c.retry.maxBackoff);
  }

  lemma KeptTwice(d: int)
    ensures Kept(Kept(d)) == Kept(d)
  {
    var m := ToMillis(d);
    assert m * MILLISECOND / MILLISECOND == m;
    assert (-m) * MILLISECOND / MILLISECOND == -m;
  }

  /** The fields an update takes from its patch. */
  ghost function Selected(patch: JobConfig, paths: seq<string>): set<Field> {
    if paths == [] then NonZero(patch) else Covered(Lookup(paths))
  }

  /** Fields that ApplyDefaults fills when they are zero. */
  predicate HasDefault(f: Field) { f in {AttemptDeadline, MinBackoff, MaxBackoff, MaxDoublings} }

  /** A numeric field that an update does not cover survives it exactly when it is not a stored
      zero that stands for a default. */
  lemma UncoveredNumberKept(row: JobConfig, patch: JobConfig, fields: set<Field>, f: Field)
    requires f !in fields && Get(row, f).Number? && Stored(row) == row
    ensures Get(Stored(ApplyDefaults(Mix(row, patch, fields))), f) == Get(row, f)
            <==> !(HasDefault(f) && Get(row, f) == Number(0))
  {
    var c := Mix(row, patch, fields);
    MixTakes(row, patch, fields, f);
    assert Kept(180 * SECOND) == 180 * SECOND && Kept(5 * SECOND) == 5 * SECOND && Kept(3600 * SECOND) == 3600 * SECOND;
    match f
    case AttemptDeadline => assert Kept(row.attemptDeadline) == row.attemptDeadline;
    case MinBackoff => assert Kept(row.retry.minBackoff) == row.retry.minBackoff;
    case MaxBackoff => assert Kept(row.retry.maxBackoff) == row.retry.maxBackoff;
    case MaxRetryDuration => assert Kept(row.retry.maxRetryDuration) == row.retry.maxRetryDuration;
    case _ =>
  }

  /** When an update leaves both backoffs of a created job alone: the backoffs to write are in order
      unless the stored minimum is zero, which becomes the default of 5 s, and the stored maximum is
      a smaller one. */
  lemma UntouchedBackoffsInOrder(c: JobConfig, patch: JobConfig, fields: set<Field>)
    requires ValidRetry(c.retry) && MinBackoff !in fields && MaxBackoff !in fields
    ensures var r := ApplyDefaults(Mix(Stored(c), patch, fields)).retry;
            r.minBackoff <= r.maxBackoff
            <==> !(Kept(c.retry.minBackoff) == 0 && 0 < Kept(c.retry.maxBackoff) < 5 * SECOND)
  {
    KeptMonotone(c.retry.minBackoff, c.retry.maxBackoff);
  }

  /** So a job created with a minimum backoff below a millisecond and a small maximum is valid and is
      stored, but every later update that leaves its backoffs alone is rejected. */
  lemma SubMillisecondBackoffBlocksUpdates(c: JobConfig, patch: JobConfig, fields: set<Field>,
                                           parses: (string, string, string) -> bool)
    requires Valid(c, parses) && 0 < c.retry.minBackoff < MILLISECOND <= c.retry.maxBackoff < 5 * SECOND
    requires MinBackoff !in fields && MaxBackoff !in fields
    ensures Valid(Stored(c), parses) && !Valid(ApplyDefaults(Mix(Stored(c), patch, fields)), parses)
  {
    StoredStaysValid(c, parses);
    KeptMonotone(MILLISECOND, c.retry.maxBackoff);
    assert Kept(MILLISECOND) == MILLISECOND;
    UntouchedBackoffsInOrder(c, patch, fields);
  }
}
