/** Update masks and configuration rules in the terms of the texts and figures that clients see: which
    path selects which field, what the defaults are, where validation draws its lines, what storing keeps. */
module JobMasks {
  import opened Options
  import opened Backoffs
  import opened JobConfigs

  // ---------------------------------------------------------------- path texts

  /** How many of the characters 1, 2, ..., i of p are upper case. */
  function Humps(p: string, i: int): nat
    requires i < |p|
  {
    if i <= 0 then 0 else Humps(p, i - 1) + if 'A' <= p[i] <= 'Z' then 1 else 0
  }

  /** snake, character by character: each one is kept or lower-cased in its order, and an underscore
      stands before each upper-case one that is not the first; nothing else is added. */
  lemma {:induction false} SnakeAt(p: string, i: nat)
    requires i < |p|
    ensures |SnakeOf(p)| == |p| + Humps(p, |p| - 1)
    ensures i + Humps(p, i) < |SnakeOf(p)|
    ensures SnakeOf(p)[i + Humps(p, i)] == if 'A' <= p[i] <= 'Z' then (p[i] as int + 32) as char else p[i]
    ensures i > 0 && 'A' <= p[i] <= 'Z' ==> SnakeOf(p)[i + Humps(p, i) - 1] == '_'
    decreases |p|
  {
    var init := p[..|p| - 1];
    if init == [] {
      assert SnakeOf(init) == [];
    } else {
      SnakeAt(init, if i < |init| then i else 0);
      HumpsOfPrefix(p, |init| - 1);
      if i < |init| {
        HumpsOfPrefix(p, i);
        HumpsGrow(p, i, |init| - 1);
      }
    }
  }

  lemma {:induction false} HumpsOfPrefix(p: string, i: int)
    requires p != [] && i < |p| - 1
    ensures Humps(p[..|p| - 1], i) == Humps(p, i)
    decreases i
  {
    if i > 0 {
      HumpsOfPrefix(p, i - 1);
    }
  }

  lemma {:induction false} HumpsGrow(p: string, i: int, j: int)
    requires i <= j < |p|
    ensures Humps(p, i) <= Humps(p, j)
    decreases j
  {
    if i < j && j > 0 {
      HumpsGrow(p, i, j - 1);
    }
  }

  predicate Blank(ch: char) { ch in {' ', '\t', '\n', '\U{000B}', '\U{000C}', '\r'} }

  /** Trim takes off blanks at both ends and nothing else. */
  lemma {:induction false} TrimKeeps(p: string) returns (i: nat, j: nat)
    ensures i <= j <= |p| && Trim(p) == p[i..j]
    ensures forall k :: 0 <= k < i || j <= k < |p| ==> Blank(p[k])
    decreases |p|
  {
    i, j := 0, |p|;
    if p != [] {
      BlankIsSpace(p[0]);
      BlankIsSpace(p[|p| - 1]);
      if IsSpace(p[0]) {
        var m, n := TrimKeeps(p[1..]);
        i, j := m + 1, n + 1;
        assert p[1..][m..n] == p[i..j];
        assert forall k :: 0 < k < |p| ==> p[k] == p[1..][k - 1];
      } else if IsSpace(p[|p| - 1]) {
        i, j := TrimKeeps(p[..|p| - 1]);
        assert p[..|p| - 1][i..j] == p[i..j];
        assert forall k :: 0 <= k < |p| - 1 ==> p[k] == p[..|p| - 1][k];
      }
    }
  }

  /** It takes off all of them. */
  lemma {:induction false} TrimmedEnds(p: string)
    ensures Trim(p) != [] ==> !Blank(Trim(p)[0]) && !Blank(Trim(p)[|Trim(p)| - 1])
    decreases |p|
  {
    if p != [] {
      BlankIsSpace(p[0]);
      BlankIsSpace(p[|p| - 1]);
      if IsSpace(p[0]) {
        TrimmedEnds(p[1..]);
      } else if IsSpace(p[|p| - 1]) {
        TrimmedEnds(p[..|p| - 1]);
      }
    }
  }

  lemma BlankIsSpace(ch: char)
    ensures Blank(ch) <==> IsSpace(ch)
  {
  }

  // ---------------------------------------------------------------- masks

  /** Each field is the patch's exactly when the mask's texts have its own or that of its section. */
  predicate TopTaken(job: JobConfig, patch: JobConfig, texts: set<string>, c: JobConfig) {
    && c.description == (if "description" in texts then patch else job).description
    && c.schedule == (if "schedule" in texts then patch else job).schedule
    && c.timeZone == (if "time_zone" in texts then patch else job).timeZone
    && c.attemptDeadline == (if "attempt_deadline" in texts then patch else job).attemptDeadline
  }

  predicate HttpTaken(job: JobConfig, patch: JobConfig, texts: set<string>, c: JobConfig) {
    var all := "http_target" in texts;
    && c.url == (if all || "http_target.uri" in texts then patch else job).url
    && c.httpMethod == (if all || "http_target.http_method" in texts then patch else job).httpMethod
    && c.headers == (if all || "http_target.headers" in texts then patch else job).headers
    && c.body == (if all || "http_target.body" in texts then patch else job).body
  }

  predicate RetryTaken(job: RetryConfig, patch: RetryConfig, texts: set<string>, c: RetryConfig) {
    var all := "retry_config" in texts;
    && c.retryCount == (if all || "retry_config.retry_count" in texts then patch else job).retryCount
    && c.maxRetryDuration == (if all || "retry_config.max_retry_duration" in texts then patch else job).maxRetryDuration
    && c.minBackoff == (if all || "retry_config.min_backoff_duration" in texts then patch else job).minBackoff
    && c.maxBackoff == (if all || "retry_config.max_backoff_duration" in texts then patch else job).maxBackoff
    && c.maxDoublings == (if all || "retry_config.max_doublings" in texts then patch else job).maxDoublings
  }

  predicate TakenByMask(job: JobConfig, patch: JobConfig, texts: set<string>, c: JobConfig) {
    TopTaken(job, patch, texts, c) && HttpTaken(job, patch, texts, c)
    && RetryTaken(job.retry, patch.retry, texts, c.retry)
  }

  /** Without a mask each field is the patch's exactly when the patch sets it. */
  predicate TakenIfSet(job: JobConfig, patch: JobConfig, c: JobConfig) {
    && c.description == (if |patch.description| > 0 then patch else job).description
    && c.schedule == (if |patch.schedule| > 0 then patch else job).schedule
    && c.timeZone == (if |patch.timeZone| > 0 then patch else job).timeZone
    && c.attemptDeadline == (if patch.attemptDeadline != 0 then patch else job).attemptDeadline
    && c.url == (if |patch.url| > 0 then patch else job).url
    && c.httpMethod == (if |patch.httpMethod| > 0 then patch else job).httpMethod
    && c.headers == (if patch.headers.Some? then patch else job).headers
    && c.body == (if patch.body.Some? then patch else job).body
    && c.retry.retryCount == (if patch.retry.retryCount != 0 then patch else job).retry.retryCount
    && c.retry.maxRetryDuration == (if patch.retry.maxRetryDuration != 0 then patch else job).retry.maxRetryDuration
    && c.retry.minBackoff == (if patch.retry.minBackoff != 0 then patch else job).retry.minBackoff
    && c.retry.maxBackoff == (if patch.retry.maxBackoff != 0 then patch else job).retry.maxBackoff
    && c.retry.maxDoublings == (if patch.retry.maxDoublings != 0 then patch else job).retry.maxDoublings
  }

  const TEXTS: set<string> := {
    "description", "schedule", "time_zone", "attempt_deadline",
    "http_target", "http_target.uri", "http_target.http_method", "http_target.headers", "http_target.body",
    "retry_config", "retry_config.retry_count", "retry_config.max_retry_duration",
    "retry_config.min_backoff_duration", "retry_config.max_backoff_duration", "retry_config.max_doublings"
  }

  /** The text of a field, and that of its section if it has one. */
  function OwnText(f: Field): string {
    match f
    case Description => "description"
    case Schedule => "schedule"
    case TimeZone => "time_zone"
    case AttemptDeadline => "attempt_deadline"
    case Url => "http_target.uri"
    case HttpMethod => "http_target.http_method"
    case Headers => "http_target.headers"
    case Body => "http_target.body"
    case RetryCount => "retry_config.retry_count"
    case MaxRetryDuration => "retry_config.max_retry_duration"
    case MinBackoff => "retry_config.min_backoff_duration"
    case MaxBackoff => "retry_config.max_backoff_duration"
    case MaxDoublings => "retry_config.max_doublings"
  }

  function SectionText(f: Field): string {
    if f in {Url, HttpMethod, Headers, Body} then "http_target"
    else if f in {RetryCount, MaxRetryDuration, MinBackoff, MaxBackoff, MaxDoublings} then "retry_config"
    else OwnText(f)
  }

  /** Which texts cover the field. */
  predicate CoveredAs(f: Field, text: string) {
    (Covers(text).Some? && f in Covers(text).value) <==> text == OwnText(f) || text == SectionText(f)
  }

  lemma TopTexts(text: string)
    ensures CoveredAs(Description, text) && CoveredAs(Schedule, text)
  {
  }

  lemma ZoneTexts(text: string)
    ensures CoveredAs(TimeZone, text) && CoveredAs(AttemptDeadline, text)
  {
  }

  lemma UrlTexts(text: string)
    ensures CoveredAs(Url, text) && CoveredAs(HttpMethod, text)
  {
  }

  lemma BodyTexts(text: string)
    ensures CoveredAs(Headers, text) && CoveredAs(Body, text)
  {
  }

  lemma CountTexts(text: string)
    ensures CoveredAs(RetryCount, text)
  {
  }

  lemma DoublingsTexts(text: string)
    ensures CoveredAs(MaxDoublings, text)
  {
  }

  lemma MinBackoffTexts(text: string)
    ensures CoveredAs(MinBackoff, text)
  {
  }

  lemma MaxBackoffTexts(text: string)
    ensures CoveredAs(MaxBackoff, text)
  {
  }

  lemma DurationTexts(text: string)
    ensures CoveredAs(MaxRetryDuration, text)
  {
  }

  lemma FieldTexts(f: Field, text: string)
    ensures CoveredAs(f, text)
  {
    match f
    case Description => TopTexts(text);
    case Schedule => TopTexts(text);
    case TimeZone => ZoneTexts(text);
    case AttemptDeadline => ZoneTexts(text);
    case Url => UrlTexts(text);
    case HttpMethod => UrlTexts(text);
    case Headers => BodyTexts(text);
    case Body => BodyTexts(text);
    case RetryCount => CountTexts(text);
    case MaxDoublings => DoublingsTexts(text);
    case MinBackoff => MinBackoffTexts(text);
    case MaxBackoff => MaxBackoffTexts(text);
    case MaxRetryDuration => DurationTexts(text);
  }

  predicate Chosen(texts: set<string>, f: Field) { OwnText(f) in texts || SectionText(f) in texts }

  lemma CoveredByText(paths: seq<string>, f: Field)
    ensures f in Covered(Lookup(paths)) <==> Chosen(PathSet(paths), f)
  {
    CoveredBySome(Lookup(paths), f);
    forall i | 0 <= i < |paths|
      ensures (Lookup(paths)[i].Some? && f in Lookup(paths)[i].value)
              <==> PathOf(paths[i]) == OwnText(f) || PathOf(paths[i]) == SectionText(f)
    {
      FieldTexts(f, PathOf(paths[i]));
      assert CoveredAs(f, PathOf(paths[i]));
    }
  }

  lemma TopByTexts(job: JobConfig, patch: JobConfig, fields: set<Field>, texts: set<string>)
    requires forall f :: f in fields <==> Chosen(texts, f)
    ensures TopTaken(job, patch, texts, Mix(job, patch, fields))
  {
    assert Chosen(texts, Description) <==> "description" in texts;
    assert Chosen(texts, Schedule) <==> "schedule" in texts;
    assert Chosen(texts, TimeZone) <==> "time_zone" in texts;
    assert Chosen(texts, AttemptDeadline) <==> "attempt_deadline" in texts;
  }

  lemma HttpByTexts(job: JobConfig, patch: JobConfig, fields: set<Field>, texts: set<string>)
    requires forall f :: f in fields <==> Chosen(texts, f)
    ensures HttpTaken(job, patch, texts, Mix(job, patch, fields))
  {
    assert Chosen(texts, Url) <==> "http_target" in texts || "http_target.uri" in texts;
    assert Chosen(texts, HttpMethod) <==> "http_target" in texts || "http_target.http_method" in texts;
    assert Chosen(texts, Headers) <==> "http_target" in texts || "http_target.headers" in texts;
    assert Chosen(texts, Body) <==> "http_target" in texts || "http_target.body" in texts;
  }

  lemma RetryChosen(texts: set<string>)
    ensures Chosen(texts, RetryCount) <==> "retry_config" in texts || "retry_config.retry_count" in texts
    ensures Chosen(texts, MaxRetryDuration) <==> "retry_config" in texts || "retry_config.max_retry_duration" in texts
    ensures Chosen(texts, MaxDoublings) <==> "retry_config" in texts || "retry_config.max_doublings" in texts
  {
  }

  lemma BackoffsChosen(texts: set<string>)
    ensures Chosen(texts, MinBackoff) <==> "retry_config" in texts || "retry_config.min_backoff_duration" in texts
    ensures Chosen(texts, MaxBackoff) <==> "retry_config" in texts || "retry_config.max_backoff_duration" in texts
  {
  }

  lemma RetryByTexts(job: JobConfig, patch: JobConfig, fields: set<Field>, texts: set<string>)
    requires forall f :: f in fields <==> Chosen(texts, f)
    ensures RetryTaken(job.retry, patch.retry, texts, Mix(job, patch, fields).retry)
  {
    RetryChosen(texts);
    BackoffsChosen(texts);
  }

  /** A supported mask selects by the texts of its paths. */
  lemma MaskSelectsByText(job: JobConfig, patch: JobConfig, paths: seq<string>)
    ensures TakenByMask(job, patch, PathSet(paths), Mix(job, patch, Covered(Lookup(paths))))
  {
    var fields, texts := Covered(Lookup(paths)), PathSet(paths);
    forall f: Field ensures f in fields <==> Chosen(texts, f) {
      CoveredByText(paths, f);
    }
    TopByTexts(job, patch, fields, texts);
    HttpByTexts(job, patch, fields, texts);
    RetryByTexts(job, patch, fields, texts);
  }

  /** A mask is supported exactly when every path is one of the fifteen texts. */
  lemma SupportedByText(paths: seq<string>)
    ensures Supported(Lookup(paths)) <==> forall i :: 0 <= i < |paths| ==> PathOf(paths[i]) in TEXTS
  {
    forall text: string ensures Covers(text).Some? <==> text in TEXTS {
    }
    forall i | 0 <= i < |paths| ensures Lookup(paths)[i].Some? <==> PathOf(paths[i]) in TEXTS {
    }
  }

  /** What an update takes from its patch, by texts. */
  lemma UpdateSelectsByText(job: JobConfig, patch: JobConfig, paths: seq<string>)
    ensures var c := Mix(job, patch, Selected(patch, paths));
            if paths == [] then TakenIfSet(job, patch, c) else TakenByMask(job, patch, PathSet(paths), c)
  {
    if paths == [] {
      OverlayIsMix(job, patch);
    } else {
      MaskSelectsByText(job, patch, paths);
    }
  }

  /** The first path that is none of the texts. */
  ghost predicate FirstUnknown(paths: seq<string>, path: string) {
    exists n :: 0 <= n < |paths| && path == paths[n] && PathOf(paths[n]) !in TEXTS
                && forall i :: 0 <= i < n ==> PathOf(paths[i]) in TEXTS
  }

  lemma FirstUnsupportedIsUnknown(paths: seq<string>, path: string)
    requires FirstUnsupported(paths, path)
    ensures FirstUnknown(paths, path)
  {
    var n :| 0 <= n < |paths| && path == paths[n] && Supported(Lookup(paths)[..n]) && FieldsOf(paths[n]).None?;
    SupportedByText(paths[..n]);
    assert Lookup(paths)[..n] == Lookup(paths[..n]);
    forall i | 0 <= i < n ensures PathOf(paths[i]) in TEXTS {
      assert paths[..n][i] == paths[i];
    }
    SupportedByText([paths[n]]);
    assert [paths[n]][0] == paths[n] && Lookup([paths[n]])[0] == FieldsOf(paths[n]);
  }

  /** applyPatch: what it answers, by the texts of the paths, and what that is in terms of fields. */
  method ApplyPatch(job: JobConfig, patch: JobConfig, paths: seq<string>) returns (r: PatchResult)
    ensures r.Patched? <==> forall i :: 0 <= i < |paths| ==> PathOf(paths[i]) in TEXTS
    ensures r.Patched? ==> if paths == [] then TakenIfSet(job, patch, r.config)
                           else TakenByMask(job, patch, PathSet(paths), r.config)
    ensures r.Unsupported? ==> FirstUnknown(paths, r.path)
    ensures r.Patched? <==> Supported(Lookup(paths))
    ensures r.Patched? ==> r.config == Mix(job, patch, Selected(patch, paths))
  {
    UpdateSelectsByText(job, patch, paths);
    SupportedByText(paths);
    if paths == [] {
      OverlayIsMix(job, patch);
      return Patched(Overlay(job, patch));
    }
    r := ApplyMask(job, patch, paths);
    if r.Unsupported? {
      FirstUnsupportedIsUnknown(paths, r.path);
    }
  }

  // ---------------------------------------------------------------- defaults, limits, storage

  /** Empty fields get UTC, POST, 180 s, 5 s, 1 h and 5 doublings; the rest is kept, with the method in
      upper case. */
  lemma DefaultsAre(c: JobConfig)
    ensures var d := ApplyDefaults(c);
            && d.timeZone == (if |c.timeZone| == 0 then "UTC" else c.timeZone)
            && (|c.httpMethod| == 0 ==> d.httpMethod == "POST")
            && (|c.httpMethod| > 0 ==> |d.httpMethod| == |c.httpMethod| && forall i :: 0 <= i < |c.httpMethod| ==>
                  d.httpMethod[i] == if 'a' <= c.httpMethod[i] <= 'z' then (c.httpMethod[i] as int - 32) as char
                                     else c.httpMethod[i])
            && d.attemptDeadline == (if c.attemptDeadline == 0 then 180_000_000_000 else c.attemptDeadline)
            && d.retry.minBackoff == (if c.retry.minBackoff == 0 then 5_000_000_000 else c.retry.minBackoff)
            && d.retry.maxBackoff == (if c.retry.maxBackoff == 0 then 3_600_000_000_000 else c.retry.maxBackoff)
            && d.retry.maxDoublings == (if c.retry.maxDoublings == 0 then 5 else c.retry.maxDoublings)
            && d.description == c.description && d.schedule == c.schedule && d.url == c.url
            && d.headers == c.headers && d.body == c.body
            && d.retry.retryCount == c.retry.retryCount && d.retry.maxRetryDuration == c.retry.maxRetryDuration
  {
    assert ToUpper("POST") == "POST";
  }

  /** Starting from a valid configuration, each field can be changed alone within exactly these limits. */
  lemma LimitsAre(c: JobConfig, parses: (string, string, string) -> bool, d: int, text: string, n: int)
    requires Valid(c, parses)
    ensures Valid(c.(attemptDeadline := d), parses) <==> 15_000_000_000 <= d <= 1_800_000_000_000
    ensures Valid(c.(description := text), parses) <==> |text| <= 500
    ensures Valid(c.(httpMethod := text), parses)
            <==> text in {"POST", "GET", "HEAD", "PUT", "DELETE", "PATCH", "OPTIONS"}
    ensures Valid(c.(retry := c.retry.(retryCount := n)), parses) <==> n >= 0
    ensures Valid(c.(retry := c.retry.(maxRetryDuration := n)), parses) <==> n >= 0
    ensures Valid(c.(retry := c.retry.(maxDoublings := n)), parses) <==> n >= 0
    ensures Valid(c.(retry := c.retry.(minBackoff := n)), parses) <==> 0 <= n <= c.retry.maxBackoff
    ensures Valid(c.(retry := c.retry.(maxBackoff := n)), parses) <==> n >= c.retry.minBackoff
    ensures Valid(c.(schedule := text), parses) <==> parses(text, c.timeZone, c.url)
    ensures Valid(c.(timeZone := text), parses) <==> parses(c.schedule, text, c.url)
    ensures Valid(c.(url := text), parses) <==> parses(c.schedule, c.timeZone, text)
  {
  }

  /** d is e truncated to whole milliseconds, towards zero. */
  predicate TruncatesTo(d: int, e: int) {
    && e % 1_000_000 == 0
    && (d >= 0 ==> 0 <= e <= d < e + 1_000_000)
    && (d < 0 ==> e - 1_000_000 < d <= e <= 0)
  }

  /** Storing truncates the four durations to whole milliseconds, reads no headers back as none, and
      keeps everything else. */
  lemma StoringKeeps(c: JobConfig)
    ensures var d := Stored(c);
            && TruncatesTo(c.attemptDeadline, d.attemptDeadline)
            && TruncatesTo(c.retry.maxRetryDuration, d.retry.maxRetryDuration)
            && TruncatesTo(c.retry.minBackoff, d.retry.minBackoff)
            && TruncatesTo(c.retry.maxBackoff, d.retry.maxBackoff)
            && d.headers == (if c.headers.Some? && |c.headers.value| == 0 then None else c.headers)
            && d.description == c.description && d.schedule == c.schedule && d.timeZone == c.timeZone
            && d.url == c.url && d.httpMethod == c.httpMethod && d.body == c.body
            && d.retry.retryCount == c.retry.retryCount && d.retry.maxDoublings == c.retry.maxDoublings
  {
    KeptTruncates(c.attemptDeadline);
    KeptTruncates(c.retry.maxRetryDuration);
    KeptTruncates(c.retry.minBackoff);
    KeptTruncates(c.retry.maxBackoff);
    if c.headers.Some? && |c.headers.value| == 0 {
      assert c.headers.value == map[];
    }
  }

  lemma KeptTruncates(d: int)
    ensures TruncatesTo(d, Kept(d))
  {
    if d < 0 {
      var m := (-d) / 1_000_000;
      assert Kept(d) == -m * 1_000_000;
    }
  }

  // ---------------------------------------------------------------- update

  /** Service.Update up to the write: the new configuration, or None when nothing is written. */
  method PrepareUpdate(row: JobConfig, patch: JobConfig, paths: seq<string>, parses: (string, string, string) -> bool)
    returns (r: Option<JobConfig>)
    ensures r.Some? ==> Valid(r.value, parses) && Stored(r.value) == r.value
    ensures paths != [] && !Supported(Lookup(paths)) ==> r.None?
    ensures paths == [] || Supported(Lookup(paths)) ==>
              var c := ApplyDefaults(Mix(row, patch, Selected(patch, paths)));
              r == if Valid(c, parses) then Some(Stored(c)) else None
  {
    var p := ApplyPatch(row, patch, paths);
    if p.Unsupported? {
      return None;
    }
    var c := ApplyDefaults(p.config);
    if !Valid(c, parses) {
      return None;
    }
    StoredStaysValid(c, parses);
    StoringTwice(c);
    return Some(Stored(c));
  }
}
