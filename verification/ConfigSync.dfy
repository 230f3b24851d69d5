/**
 * Keeping the single-record and the multi-record configuration in step: the single record becomes
 * the default source, sink and job, entries of the existing multi-record configuration are
 * preserved, and the first MySQL source and Elasticsearch sink become the single record again.
 */
module ConfigSync {
  import opened Wrappers

  datatype Config = Config(
    dbHost: string, dbPort: int, dbUser: string, dbPassword: string, dbName: string, serverId: nat,
    tableFilters: seq<string>, esAddresses: seq<string>, esUser: string, esPassword: string)

  datatype DataSource = DataSource(
    id: string, name: string, kind: string, host: string, port: int, user: string, password: string,
    database: string, serverId: nat, tableFilters: seq<string>)

  datatype SinkConfig = SinkConfig(
    id: string, name: string, kind: string, addresses: seq<string>, user: string, password: string)

  datatype JobConfig = JobConfig(
    id: string, name: string, sourceId: string, sinkId: string, enabled: bool, description: string)

  datatype Global = Global(logLevel: string, metricsPort: int, grpcPort: int, deadLetters: bool)

  datatype MultiConfig = MultiConfig(
    version: string, sources: seq<DataSource>, sinks: seq<SinkConfig>, jobs: seq<JobConfig>, global: Global)

  datatype ConfigError =
    | NoSources | NoSinks | NoMySql | NoElasticsearch
    | NoVersion | NoId | NoHost | BadPort | NoAddresses | UnknownSource | UnknownSink

  const SOURCE_ID := "default-mysql"
  const SINK_ID := "default-es"
  const JOB_ID := "default-job"

  // ---------------------------------------------------------------- the conversions

  /** MigrateFromLegacyConfig. */
  function Migrate(c: Config): MultiConfig {
    MultiConfig(
      "2.0",
      [DataSource(SOURCE_ID, "Default MySQL Database", "mysql", c.dbHost, c.dbPort, c.dbUser, c.dbPassword,
                  c.dbName, c.serverId, c.tableFilters)],
      [SinkConfig(SINK_ID, "Default Elasticsearch", "elasticsearch", c.esAddresses, c.esUser, c.esPassword)],
      [JobConfig(JOB_ID, "Default Sync Job", SOURCE_ID, SINK_ID, true, "Migrated from legacy configuration")],
      Global("info", 8080, 50051, false))
  }

  function FirstSource(sources: seq<DataSource>, kind: string): Option<DataSource> {
    if sources == [] then None else if sources[0].kind == kind then Some(sources[0]) else FirstSource(sources[1..], kind)
  }

  function FirstSink(sinks: seq<SinkConfig>, kind: string): Option<SinkConfig> {
    if sinks == [] then None else if sinks[0].kind == kind then Some(sinks[0]) else FirstSink(sinks[1..], kind)
  }

  /** convertMultiToLegacy. */
  function Convert(m: MultiConfig): Result<Config, ConfigError> {
    if m.sources == [] then Failure(NoSources)
    else if m.sinks == [] then Failure(NoSinks)
    else
      match (FirstSource(m.sources, "mysql"), FirstSink(m.sinks, "elasticsearch"))
      case (None, _) => Failure(NoMySql)
      case (_, None) => Failure(NoElasticsearch)
      case (Some(s), Some(t)) =>
        Success(Config(s.host, s.port, s.user, s.password, s.database, s.serverId, s.tableFilters,
                       t.addresses, t.user, t.password))
  }

  // ---------------------------------------------------------------- merging

  /** Some entry of the list has this id. */
  predicate HasId<T>(entries: seq<T>, id: T -> string, wanted: string) {
    exists i :: 0 <= i < |entries| && id(entries[i]) == wanted
  }

  /** The entries, with those of `existing` added that are not the default one and whose id is new. */
  function Preserve<T>(entries: seq<T>, existing: seq<T>, id: T -> string, default_: string): seq<T> {
    if existing == [] then entries
    else
      var merged, last := Preserve(entries, existing[..|existing| - 1], id, default_), existing[|existing| - 1];
      if id(last) != default_ && !HasId(merged, id, id(last)) then merged + [last] else merged
  }

  function SourceId(s: DataSource): string { s.id }

  function SinkId(s: SinkConfig): string { s.id }

  function JobId(j: JobConfig): string { j.id }

  function Merge(latest: MultiConfig, existing: MultiConfig): MultiConfig {
    latest.(sources := Preserve(latest.sources, existing.sources, SourceId, SOURCE_ID),
           sinks := Preserve(latest.sinks, existing.sinks, SinkId, SINK_ID),
           jobs := Preserve(latest.jobs, existing.jobs, JobId, JOB_ID))
  }

  /** One of the three nested loops of mergeConfigs. */
  method PreserveEntries<T>(entries: seq<T>, existing: seq<T>, id: T -> string, default_: string) returns (merged: seq<T>)
    ensures merged == Preserve(entries, existing, id, default_)
  {
    merged := entries;
    for i := 0 to |existing|
      invariant merged == Preserve(entries, existing[..i], id, default_)
    {
      assert existing[..i + 1][..i] == existing[..i];
      if id(existing[i]) != default_ {
        var found, k := false, 0;
        while k < |merged| && !found
          invariant k <= |merged| && (found ==> HasId(merged, id, id(existing[i])))
          invariant !found ==> forall n | 0 <= n < k :: id(merged[n]) != id(existing[i])
          decreases |merged| - k, !found
        {
          if id(merged[k]) == id(existing[i]) {
            found := true;
          }
          k := k + 1;
        }
        if !found {
          merged := merged + [existing[i]];
        }
      }
    }
    assert existing[..|existing|] == existing;
  }

  method MergeConfigs(latest: MultiConfig, existing: MultiConfig) returns (merged: MultiConfig)
    ensures merged == Merge(latest, existing)
  {
    var sources := PreserveEntries(latest.sources, existing.sources, SourceId, SOURCE_ID);
    var sinks := PreserveEntries(latest.sinks, existing.sinks, SinkId, SINK_ID);
    var jobs := PreserveEntries(latest.jobs, existing.jobs, JobId, JOB_ID);
    merged := latest.(sources := sources, sinks := sinks, jobs := jobs);
  }

  // ---------------------------------------------------------------- validation

  function CheckSource(s: DataSource): Option<ConfigError> {
    if s.id == "" then Some(NoId) else if s.host == "" then Some(NoHost)
    else if s.port <= 0 || s.port > 65535 then Some(BadPort) else None
  }

  function CheckSink(s: SinkConfig): Option<ConfigError> {
    if s.id == "" then Some(NoId) else if s.addresses == [] then Some(NoAddresses) else None
  }

  /** Every job has an id and refers to a source and a sink of the configuration. */
  predicate JobFits(m: MultiConfig, j: JobConfig) {
    j.id != "" && HasId(m.sources, SourceId, j.sourceId) && HasId(m.sinks, SinkId, j.sinkId)
  }

  predicate IsValid(m: MultiConfig) {
    && m.version != ""
    && (forall i | 0 <= i < |m.sources| :: CheckSource(m.sources[i]).None?)
    && (forall i | 0 <= i < |m.sinks| :: CheckSink(m.sinks[i]).None?)
    && forall i | 0 <= i < |m.jobs| :: JobFits(m, m.jobs[i])
  }

  /** What a fault says of the configuration. */
  predicate Applies(m: MultiConfig, fault: ConfigError) {
    match fault
    case NoVersion => m.version == ""
    case NoId => HasId(m.sources, SourceId, "") || HasId(m.sinks, SinkId, "") || HasId(m.jobs, JobId, "")
    case NoHost => exists i :: 0 <= i < |m.sources| && m.sources[i].host == ""
    case BadPort => exists i :: 0 <= i < |m.sources| && !(1 <= m.sources[i].port <= 65535)
    case NoAddresses => exists i :: 0 <= i < |m.sinks| && m.sinks[i].addresses == []
    case UnknownSource => exists i :: 0 <= i < |m.jobs| && !HasId(m.sources, SourceId, m.jobs[i].sourceId)
    case UnknownSink => exists i :: 0 <= i < |m.jobs| && !HasId(m.sinks, SinkId, m.jobs[i].sinkId)
    case _ => false
  }

  /** validateMultiConfig: a fault that the configuration has, if it has any. */
  method ValidateMultiConfig(m: MultiConfig) returns (fault: Option<ConfigError>)
    ensures fault.None? <==> IsValid(m)
    ensures fault.Some? ==> Applies(m, fault.value)
  {
    if m.version == "" {
      return Some(NoVersion);
    }
    for i := 0 to |m.sources|
      invariant forall k | 0 <= k < i :: CheckSource(m.sources[k]).None?
    {
      fault := CheckSource(m.sources[i]);
      if fault.Some? {
        assert fault == Some(NoId) ==> SourceId(m.sources[i]) == "";
        return;
      }
    }
    for i := 0 to |m.sinks|
      invariant forall k | 0 <= k < i :: CheckSink(m.sinks[k]).None?
    {
      fault := CheckSink(m.sinks[i]);
      if fault.Some? {
        assert fault == Some(NoId) ==> SinkId(m.sinks[i]) == "";
        return;
      }
    }
    var sourceIds, sinkIds := {}, {};
    for i := 0 to |m.sources|
      invariant forall id :: id in sourceIds <==> exists k :: 0 <= k < i && SourceId(m.sources[k]) == id
    {
      sourceIds := sourceIds + {m.sources[i].id};
    }
    for i := 0 to |m.sinks|
      invariant forall id :: id in sinkIds <==> exists k :: 0 <= k < i && SinkId(m.sinks[k]) == id
    {
      sinkIds := sinkIds + {m.sinks[i].id};
    }
    for i := 0 to |m.jobs|
      invariant forall k | 0 <= k < i :: JobFits(m, m.jobs[k])
    {
      var j := m.jobs[i];
      if j.id == "" {
        assert JobId(m.jobs[i]) == "";
        return Some(NoId);
      } else if j.sourceId !in sourceIds {
        return Some(UnknownSource);
      } else if j.sinkId !in sinkIds {
        return Some(UnknownSink);
      }
    }
    fault := None;
  }

  /** What ValidateConfig accepts. */
  predicate ConfigFits(c: Config) {
    c.dbHost != "" && 0 < c.dbPort <= 65535 && c.dbUser != "" && c.dbName != "" && c.esAddresses != []
  }

  // ---------------------------------------------------------------- what merging keeps

  lemma {:induction false} PreserveBegins<T>(entries: seq<T>, existing: seq<T>, id: T -> string, default_: string)
    ensures entries <= Preserve(entries, existing, id, default_)
    decreases |existing|
  {
    if existing != [] {
      PreserveBegins(entries, existing[..|existing| - 1], id, default_);
    }
  }

  predicate UniqueIds<T>(entries: seq<T>, id: T -> string) {
    forall i, k | 0 <= i < k < |entries| :: id(entries[i]) != id(entries[k])
  }

  lemma {:induction false} PreserveIsUnique<T>(entries: seq<T>, existing: seq<T>, id: T -> string, default_: string)
    requires UniqueIds(entries, id)
    ensures UniqueIds(Preserve(entries, existing, id, default_), id)
    decreases |existing|
  {
    if existing != [] {
      PreserveIsUnique(entries, existing[..|existing| - 1], id, default_);
    }
  }

  /** The ids afterwards: those there were, and those of the existing entries but for the default one. */
  lemma {:induction false} PreservedIds<T>(entries: seq<T>, existing: seq<T>, id: T -> string, default_: string, wanted: string)
    ensures HasId(Preserve(entries, existing, id, default_), id, wanted)
       <==> HasId(entries, id, wanted) || (wanted != default_ && HasId(existing, id, wanted))
    decreases |existing|
  {
    if existing != [] {
      var init, last := existing[..|existing| - 1], existing[|existing| - 1];
      var merged := Preserve(entries, init, id, default_);
      PreservedIds(entries, init, id, default_, wanted);
      HasIdSnoc(init, last, id, wanted);
      HasIdSnoc(merged, last, id, wanted);
      assert init + [last] == existing;
      hide HasId;
    }
  }

  lemma HasIdSnoc<T>(entries: seq<T>, last: T, id: T -> string, wanted: string)
    ensures HasId(entries + [last], id, wanted) <==> HasId(entries, id, wanted) || id(last) == wanted
  {
    var all := entries + [last];
    if HasId(entries, id, wanted) {
      var i :| 0 <= i < |entries| && id(entries[i]) == wanted;
      assert all[i] == entries[i];
    }
    assert all[|entries|] == last;
  }

  /** Every entry afterwards was there before or is an existing one. */
  lemma {:induction false} PreservedFrom<T>(entries: seq<T>, existing: seq<T>, id: T -> string, default_: string, i: nat)
    requires i < |Preserve(entries, existing, id, default_)|
    ensures var e := Preserve(entries, existing, id, default_)[i]; e in entries || e in existing
    decreases |existing|
  {
    if existing != [] {
      var init := existing[..|existing| - 1];
      if i < |Preserve(entries, init, id, default_)| {
        PreservedFrom(entries, init, id, default_, i);
      }
    }
  }

  /** Preserving what has been preserved adds the same entries again. */
  lemma {:induction false} PreserveTwice<T>(entries: seq<T>, existing: seq<T>, id: T -> string, default_: string)
    requires UniqueIds(entries, id) && HasId(entries, id, default_)
    ensures Preserve(entries, Preserve(entries, existing, id, default_), id, default_) == Preserve(entries, existing, id, default_)
    decreases |existing|
  {
    if existing == [] {
      PreserveKnown(entries, entries, id, default_);
    } else {
      var init, last := existing[..|existing| - 1], existing[|existing| - 1];
      var merged := Preserve(entries, init, id, default_);
      PreserveTwice(entries, init, id, default_);
      if id(last) != default_ && !HasId(merged, id, id(last)) {
        assert (merged + [last])[..|merged|] == merged;
      }
    }
  }

  lemma {:induction false} PreserveKnown<T>(entries: seq<T>, known: seq<T>, id: T -> string, default_: string)
    requires forall i | 0 <= i < |known| :: HasId(entries, id, id(known[i]))
    ensures Preserve(entries, known, id, default_) == entries
    decreases |known|
  {
    if known != [] {
      PreserveKnown(entries, known[..|known| - 1], id, default_);
    }
  }

  // ---------------------------------------------------------------- the service's promises

  /** The single record survives the round through the multi-record configuration, whatever that held before. */
  lemma RoundTrip(c: Config, existing: MultiConfig)
    ensures Convert(Merge(Migrate(c), existing)) == Success(c)
  {
    var latest := Migrate(c);
    PreserveBegins(latest.sources, existing.sources, SourceId, SOURCE_ID);
    PreserveBegins(latest.sinks, existing.sinks, SinkId, SINK_ID);
    hide Preserve;
    var merged := Merge(latest, existing);
    assert merged.sources[0] == latest.sources[0] && merged.sinks[0] == latest.sinks[0];
  }

  lemma MergeIsUnique(c: Config, existing: MultiConfig)
    ensures var merged := Merge(Migrate(c), existing);
            UniqueIds(merged.sources, SourceId) && UniqueIds(merged.sinks, SinkId) && UniqueIds(merged.jobs, JobId)
  {
    var latest := Migrate(c);
    PreserveIsUnique(latest.sources, existing.sources, SourceId, SOURCE_ID);
    PreserveIsUnique(latest.sinks, existing.sinks, SinkId, SINK_ID);
    PreserveIsUnique(latest.jobs, existing.jobs, JobId, JOB_ID);
  }

  lemma MergeIsIdempotent(c: Config, existing: MultiConfig)
    ensures Merge(Migrate(c), Merge(Migrate(c), existing)) == Merge(Migrate(c), existing)
  {
    var latest := Migrate(c);
    assert SourceId(latest.sources[0]) == SOURCE_ID && SinkId(latest.sinks[0]) == SINK_ID && JobId(latest.jobs[0]) == JOB_ID;
    PreserveTwice(latest.sources, existing.sources, SourceId, SOURCE_ID);
    PreserveTwice(latest.sinks, existing.sinks, SinkId, SINK_ID);
    PreserveTwice(latest.jobs, existing.jobs, JobId, JOB_ID);
  }

  /** Ids of the existing configuration stay known: jobs keep the sources and sinks they refer to. */
  lemma ReferencesKept(c: Config, existing: MultiConfig, j: JobConfig)
    requires JobFits(existing, j)
    ensures JobFits(Merge(Migrate(c), existing), j)
  {
    var latest := Migrate(c);
    assert SourceId(latest.sources[0]) == SOURCE_ID && SinkId(latest.sinks[0]) == SINK_ID;
    PreservedIds(latest.sources, existing.sources, SourceId, SOURCE_ID, j.sourceId);
    PreservedIds(latest.sinks, existing.sinks, SinkId, SINK_ID, j.sinkId);
  }

  /** The merge of a valid single record into a valid configuration is valid. */
  lemma MergeIsValid(c: Config, existing: MultiConfig)
    requires IsValid(existing) && ConfigFits(c)
    ensures IsValid(Merge(Migrate(c), existing))
  {
    var latest, merged := Migrate(c), Merge(Migrate(c), existing);
    forall i | 0 <= i < |merged.sources| ensures CheckSource(merged.sources[i]).None? {
      PreservedFrom(latest.sources, existing.sources, SourceId, SOURCE_ID, i);
    }
    forall i | 0 <= i < |merged.sinks| ensures CheckSink(merged.sinks[i]).None? {
      PreservedFrom(latest.sinks, existing.sinks, SinkId, SINK_ID, i);
    }
    forall i | 0 <= i < |merged.jobs| ensures JobFits(merged, merged.jobs[i]) {
      PreservedFrom(latest.jobs, existing.jobs, JobId, JOB_ID, i);
      if merged.jobs[i] in existing.jobs {
        ReferencesKept(c, existing, merged.jobs[i]);
      } else {
        DefaultJobFits(c, existing);
      }
    }
  }

  lemma DefaultJobFits(c: Config, existing: MultiConfig)
    ensures JobFits(Merge(Migrate(c), existing), Migrate(c).jobs[0])
  {
    var latest := Migrate(c);
    assert SourceId(latest.sources[0]) == SOURCE_ID && SinkId(latest.sinks[0]) == SINK_ID;
    PreservedIds(latest.sources, existing.sources, SourceId, SOURCE_ID, SOURCE_ID);
    PreservedIds(latest.sinks, existing.sinks, SinkId, SINK_ID, SINK_ID);
  }

  /** The global settings are not preserved: they come out as after a migration, exactly as if they had never been set. */
  lemma GlobalSettingsReset(c: Config, existing: MultiConfig)
    ensures Merge(Migrate(c), existing).global == existing.global <==> existing.global == Global("info", 8080, 50051, false)
  {
  }

  /** Exactly what comes through a merge: the latest entries, and the first existing one of every id that is neither the default nor taken. */
  lemma {:induction false} PreservedExactly<T>(entries: seq<T>, existing: seq<T>, id: T -> string, default_: string, e: T)
    ensures e in Preserve(entries, existing, id, default_)
       <==> || e in entries
            || (exists i :: && 0 <= i < |existing| && existing[i] == e
                            && id(e) != default_ && !HasId(entries, id, id(e)) && !HasId(existing[..i], id, id(e)))
    decreases |existing|
  {
    if existing != [] {
      var n := |existing| - 1;
      var init, last := existing[..n], existing[n];
      PreservedExactly(entries, init, id, default_, e);
      PreservedIds(entries, init, id, default_, id(last));
      assert forall i | 0 <= i <= n :: existing[..i] == init[..i];
      hide HasId;
      if e in Preserve(entries, init, id, default_) && e !in entries {
        var i :| 0 <= i < |init| && init[i] == e && id(e) != default_ && !HasId(entries, id, id(e)) && !HasId(init[..i], id, id(e));
        assert existing[i] == e && existing[..i] == init[..i];
      }
      if id(last) != default_ && !HasId(entries, id, id(last)) && !HasId(init, id, id(last)) {
        assert existing[n] == last && existing[..n] == init;
      }
      if i :| 0 <= i < |existing| && existing[i] == e && id(e) != default_ && !HasId(entries, id, id(e)) && !HasId(existing[..i], id, id(e)) {
        assert existing[..i] == init[..i] && (i < n ==> init[i] == e);
      }
    }
  }

  /** The default job of a merged configuration runs, between the record's own database and index. */
  lemma DefaultJobRuns(c: Config, existing: MultiConfig)
    ensures var merged := Merge(Migrate(c), existing);
            && merged.jobs != [] && merged.jobs[0].enabled && merged.version == "2.0"
            && (exists i :: && 0 <= i < |merged.sources| && merged.sources[i].id == merged.jobs[0].sourceId
                            && merged.sources[i].kind == "mysql" && merged.sources[i].host == c.dbHost
                            && merged.sources[i].port == c.dbPort && merged.sources[i].database == c.dbName)
            && (exists i :: && 0 <= i < |merged.sinks| && merged.sinks[i].id == merged.jobs[0].sinkId
                            && merged.sinks[i].kind == "elasticsearch" && merged.sinks[i].addresses == c.esAddresses)
  {
    var latest := Migrate(c);
    PreserveBegins(latest.sources, existing.sources, SourceId, SOURCE_ID);
    PreserveBegins(latest.sinks, existing.sinks, SinkId, SINK_ID);
    PreserveBegins(latest.jobs, existing.jobs, JobId, JOB_ID);
    hide Preserve;
    var merged := Merge(latest, existing);
    assert merged.sources[0] == latest.sources[0] && merged.sinks[0] == latest.sinks[0] && merged.jobs[0] == latest.jobs[0];
  }

  /** A configuration is valid exactly when it has a version, and all its parts the fields they need, and no job refers to a part that is not there. */
  lemma ValidExactly(m: MultiConfig)
    ensures IsValid(m)
       <==> && m.version != ""
            && (forall s <- m.sources :: s.id != "" && s.host != "" && 1 <= s.port <= 65535)
            && (forall t <- m.sinks :: t.id != "" && t.addresses != [])
            && forall j <- m.jobs ::
                 j.id != "" && (exists s <- m.sources :: s.id == j.sourceId) && (exists t <- m.sinks :: t.id == j.sinkId)
  {
    forall j | j in m.jobs
      ensures JobFits(m, j) <==> j.id != "" && (exists s <- m.sources :: s.id == j.sourceId) && (exists t <- m.sinks :: t.id == j.sinkId)
    {
      IdExactly(m.sources, SourceId, j.sourceId);
      IdExactly(m.sinks, SinkId, j.sinkId);
    }
    hide JobFits, HasId;
  }

  lemma IdExactly<T>(entries: seq<T>, id: T -> string, wanted: string)
    ensures HasId(entries, id, wanted) <==> exists e <- entries :: id(e) == wanted
  {
    if e :| e in entries && id(e) == wanted {
      var i :| 0 <= i < |entries| && entries[i] == e;
      assert id(entries[i]) == wanted;
    }
  }

  // ---------------------------------------------------------------- back to the single record

  predicate IsFirstSource(sources: seq<DataSource>, kind: string, i: nat) {
    i < |sources| && sources[i].kind == kind && forall n | 0 <= n < i :: sources[n].kind != kind
  }

  predicate IsFirstSink(sinks: seq<SinkConfig>, kind: string, i: nat) {
    i < |sinks| && sinks[i].kind == kind && forall n | 0 <= n < i :: sinks[n].kind != kind
  }

  lemma {:induction false} FirstSourceExactly(sources: seq<DataSource>, kind: string)
    ensures match FirstSource(sources, kind)
            case None => forall s <- sources :: s.kind != kind
            case Some(s) => exists i: nat :: IsFirstSource(sources, kind, i) && sources[i] == s
  {
    if sources != [] {
      if sources[0].kind == kind {
        assert IsFirstSource(sources, kind, 0);
      } else {
        var rest := sources[1..];
        FirstSourceExactly(rest, kind);
        if FirstSource(rest, kind).Some? {
          var i: nat :| IsFirstSource(rest, kind, i) && rest[i] == FirstSource(rest, kind).value;
          assert IsFirstSource(sources, kind, i + 1) && sources[i + 1] == rest[i];
        }
      }
    }
  }

  lemma {:induction false} FirstSinkExactly(sinks: seq<SinkConfig>, kind: string)
    ensures match FirstSink(sinks, kind)
            case None => forall s <- sinks :: s.kind != kind
            case Some(s) => exists i: nat :: IsFirstSink(sinks, kind, i) && sinks[i] == s
  {
    if sinks != [] {
      if sinks[0].kind == kind {
        assert IsFirstSink(sinks, kind, 0);
      } else {
        var rest := sinks[1..];
        FirstSinkExactly(rest, kind);
        if FirstSink(rest, kind).Some? {
          var i: nat :| IsFirstSink(rest, kind, i) && rest[i] == FirstSink(rest, kind).value;
          assert IsFirstSink(sinks, kind, i + 1) && sinks[i + 1] == rest[i];
        }
      }
    }
  }

  /** The single record has the settings of these two entries. */
  predicate MadeOf(c: Config, s: DataSource, t: SinkConfig) {
    && c.dbHost == s.host && c.dbPort == s.port && c.dbUser == s.user && c.dbPassword == s.password
    && c.dbName == s.database && c.serverId == s.serverId && c.tableFilters == s.tableFilters
    && c.esAddresses == t.addresses && c.esUser == t.user && c.esPassword == t.password
  }

  /** The single record is made of the first MySQL source and the first Elasticsearch sink, or says which of them is missing. */
  lemma ConvertExactly(m: MultiConfig)
    ensures match Convert(m)
            case Success(c) =>
              exists i: nat, k: nat :: IsFirstSource(m.sources, "mysql", i) && IsFirstSink(m.sinks, "elasticsearch", k) && MadeOf(c, m.sources[i], m.sinks[k])
            case Failure(fault) =>
              fault == if m.sources == [] then NoSources
                       else if m.sinks == [] then NoSinks
                       else if forall s <- m.sources :: s.kind != "mysql" then NoMySql
                       else NoElasticsearch
    ensures Convert(m).Success? <==> (exists s <- m.sources :: s.kind == "mysql") && (exists t <- m.sinks :: t.kind == "elasticsearch")
  {
    FirstSourceExactly(m.sources, "mysql");
    FirstSinkExactly(m.sinks, "elasticsearch");
    hide FirstSource, FirstSink;
    if Convert(m).Success? {
      var i: nat :| IsFirstSource(m.sources, "mysql", i) && m.sources[i] == FirstSource(m.sources, "mysql").value;
      var k: nat :| IsFirstSink(m.sinks, "elasticsearch", k) && m.sinks[k] == FirstSink(m.sinks, "elasticsearch").value;
      assert m.sources[i] in m.sources && m.sinks[k] in m.sinks && MadeOf(Convert(m).value, m.sources[i], m.sinks[k]);
    }
  }
}
