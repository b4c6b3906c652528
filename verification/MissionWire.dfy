/** The mission file (deployctl.py) and the worker metadata inside it (lifecycle.py): their JSON
    forms, the strict readers, the compatibility form of supervisor-owned missions, and the
    rewrites the deployment steps make. */
module MissionWire {
  import opened Common

  type Fields = map<string, Json>

  // ---- worker metadata -------------------------------------------------------------------

  const MetaSchema := 1
  const Running := "running"
  const Stopped := "stopped"

  datatype WorkerMeta = WorkerMeta(
    schemaVersion: int, state: string, pid: Option<int>, pgid: Option<int>, sid: Option<int>,
    startTimeTicks: Option<int>, token: Option<string>, repo: string, gitCommit: Option<string>,
    workerId: Option<string>, logPath: string, startedAt: Option<Double>, stoppedAt: Option<Double>)

  function IntJson(v: Option<int>): Json { if v.Some? then Int(v.value) else Null }
  function StrJson(v: Option<string>): Json { if v.Some? then Str(v.value) else Null }
  function FloatJson(v: Option<Double>): Json { if v.Some? then Float(v.value) else Null }

  function MetaFields(m: WorkerMeta): Fields {
    map[
      "schema_version" := Int(m.schemaVersion),
      "state" := Str(m.state),
      "pid" := IntJson(m.pid),
      "pgid" := IntJson(m.pgid),
      "sid" := IntJson(m.sid),
      "start_time_ticks" := IntJson(m.startTimeTicks),
      "token" := StrJson(m.token),
      "repo" := Str(m.repo),
      "git_commit" := StrJson(m.gitCommit),
      "worker_id" := StrJson(m.workerId),
      "log_path" := Str(m.logPath),
      "started_at" := FloatJson(m.startedAt),
      "stopped_at" := FloatJson(m.stoppedAt)]
  }

  function OptionalInt(f: Fields, key: string, minimum: int): Result<Option<int>> {
    match Get(f, key)
    case Null => Ok(None)
    case Int(i) => if i < minimum then Refused else Ok(Some(i))
    case _ => Refused
  }

  /** Only genuine absence takes the default; a null is refused. */
  function Text(f: Fields, key: string, default: string): Result<string> {
    if key !in f then Ok(default) else if f[key].Str? then Ok(f[key].s) else Refused
  }

  function OptionalText(f: Fields, key: string): Result<Option<string>> {
    match Get(f, key)
    case Null => Ok(None)
    case Str(s) => Ok(Some(s))
    case _ => Refused
  }

  function OptionalTime(f: Fields, key: string): Result<Option<Double>> {
    match Get(f, key)
    case Null => Ok(None)
    case Int(i) => if i < 0 then Refused else Ok(Some(FromInt(i)))
    case Float(d) => if NotNegative(d) then Ok(Some(d)) else Refused
    case _ => Refused
  }

  /** A time is read as the number written, whole or not, exactly if that is not negative. */
  lemma TimesRead(f: Fields, key: string, i: int, d: Double)
    ensures Get(f, key) == Int(i) ==>
            OptionalTime(f, key) == if NotNegative(FromInt(i)) then Ok(Some(FromInt(i))) else Refused
    ensures Get(f, key) == Float(d) ==> OptionalTime(f, key) == if NotNegative(d) then Ok(Some(d)) else Refused
  {}

  function ParseMeta(f: Fields): Result<WorkerMeta> {
    var version := Get(f, "schema_version");
    var state := Text(f, "state", Stopped);
    var pid, pgid := OptionalInt(f, "pid", 1), OptionalInt(f, "pgid", 1);
    var sid, ticks := OptionalInt(f, "sid", 0), OptionalInt(f, "start_time_ticks", 1);
    var token, repo := OptionalText(f, "token"), Text(f, "repo", "");
    var commit, worker := OptionalText(f, "git_commit"), OptionalText(f, "worker_id");
    var log := Text(f, "log_path", "");
    var started, stopped := OptionalTime(f, "started_at"), OptionalTime(f, "stopped_at");
    if version != Int(MetaSchema) || state.Refused? || (state.value != Running && state.value != Stopped)
       || pid.Refused? || pgid.Refused? || sid.Refused? || ticks.Refused? || token.Refused? || repo.Refused?
       || commit.Refused? || worker.Refused? || log.Refused? || started.Refused? || stopped.Refused?
    then Refused
    else Ok(WorkerMeta(MetaSchema, state.value, pid.value, pgid.value, sid.value, ticks.value, token.value,
                       repo.value, commit.value, worker.value, log.value, started.value, stopped.value))
  }

  predicate AtLeast(v: Option<int>, minimum: int) { v.Some? ==> v.value >= minimum }
  predicate NoEarlier(v: Option<Double>) { v.Some? ==> NotNegative(v.value) }

  predicate ValidMeta(m: WorkerMeta) {
    && m.schemaVersion == MetaSchema && (m.state == Running || m.state == Stopped)
    && AtLeast(m.pid, 1) && AtLeast(m.pgid, 1) && AtLeast(m.sid, 0) && AtLeast(m.startTimeTicks, 1)
    && NoEarlier(m.startedAt) && NoEarlier(m.stoppedAt)
  }

  /** Every field of the stored form, by name. */
  ghost predicate IdentityStored(f: Fields, m: WorkerMeta) {
    && Get(f, "schema_version") == Int(m.schemaVersion)
    && "state" in f && f["state"] == Str(m.state)
    && Get(f, "pid") == IntJson(m.pid) && Get(f, "pgid") == IntJson(m.pgid)
    && Get(f, "sid") == IntJson(m.sid) && Get(f, "start_time_ticks") == IntJson(m.startTimeTicks)
  }

  ghost predicate OriginStored(f: Fields, m: WorkerMeta) {
    && Get(f, "token") == StrJson(m.token)
    && "repo" in f && f["repo"] == Str(m.repo)
    && Get(f, "git_commit") == StrJson(m.gitCommit) && Get(f, "worker_id") == StrJson(m.workerId)
    && "log_path" in f && f["log_path"] == Str(m.logPath)
    && Get(f, "started_at") == FloatJson(m.startedAt) && Get(f, "stopped_at") == FloatJson(m.stoppedAt)
  }

  ghost predicate MetaStored(f: Fields, m: WorkerMeta) { IdentityStored(f, m) && OriginStored(f, m) }

  lemma IdentityLookup(m: WorkerMeta)
    ensures IdentityStored(MetaFields(m), m)
  {}

  lemma OriginLookup(m: WorkerMeta)
    ensures OriginStored(MetaFields(m), m)
  {}

  lemma MetaLookup(m: WorkerMeta)
    ensures MetaStored(MetaFields(m), m)
  {
    IdentityLookup(m);
    OriginLookup(m);
  }

  lemma StoredReadsBack(f: Fields, m: WorkerMeta)
    requires MetaStored(f, m)
    ensures ParseMeta(f) == if ValidMeta(m) then Ok(m) else Refused
  {}

  lemma MetaRoundTrip(m: WorkerMeta)
    ensures ParseMeta(MetaFields(m)) == if ValidMeta(m) then Ok(m) else Refused
  {
    MetaLookup(m);
    StoredReadsBack(MetaFields(m), m);
  }

  lemma ParsedMetaValid(f: Fields)
    requires ParseMeta(f).Ok?
    ensures ValidMeta(ParseMeta(f).value)
  {}

  // ---- the candidate of a supervisor-owned mission ---------------------------------------

  /** Stands in for the candidate and carries no process identity. */
  function Descriptor(commit: string, repo: string): WorkerMeta {
    WorkerMeta(MetaSchema, Stopped, None, None, None, None, None, repo, Some(commit), None, "", None, None)
  }

  /** What older controllers wrote instead. */
  function Placeholder(commit: string, repo: string): Fields {
    map[
      "schema_version" := Int(MetaSchema), "state" := Str(Running), "pid" := Int(0), "pgid" := Int(0),
      "sid" := Int(0), "start_time_ticks" := Int(0), "token" := Null, "repo" := Str(repo),
      "git_commit" := Str(commit), "worker_id" := Str(""), "log_path" := Str(""),
      "started_at" := Null, "stopped_at" := Null]
  }

  /** Truth values and numbers compare by value in the host language, whatever their JSON type. */
  function Whole(j: Json): Option<int> {
    match j
    case Bool(b) => Some(if b then 1 else 0)
    case Int(i) => Some(i)
    case _ => None
  }

  predicate SameValue(a: Json, b: Json) {
    || a == b
    || (Whole(a).Some? && Whole(a) == Whole(b))
    || (a.Float? && Whole(b).Some? && a.d == FromInt(Whole(b).value))
    || (b.Float? && Whole(a).Some? && b.d == FromInt(Whole(a).value))
  }

  /** Comparing by value is an equivalence, by which a truth value is the number it counts as. */
  lemma ValuesCompare(a: Json, b: Json, c: Json)
    ensures SameValue(a, a) && (SameValue(a, b) <==> SameValue(b, a))
    ensures SameValue(a, b) && SameValue(b, c) ==> SameValue(a, c)
    ensures SameValue(Bool(true), Int(1)) && SameValue(Bool(false), Int(0)) && SameValue(Int(1), Float(FromInt(1)))
  {}

  predicate SameFields(f: Fields, g: Fields) {
    f.Keys == g.Keys && forall k :: k in f ==> SameValue(f[k], g[k])
  }

  datatype Owner = Supervisor | Controller | Unknown

  function ParseCandidate(j: Json, owned: Owner, commit: string, repo: string): Result<Option<WorkerMeta>> {
    match j
    case Null => if owned == Supervisor then Ok(None) else Refused
    case Obj(f) =>
      if SameFields(f, MetaFields(Descriptor(commit, repo))) then
        if owned == Supervisor then Ok(None) else Refused
      else
        var meta := ParseMeta(f);
        if meta.Ok? then Ok(Some(meta.value))
        else if owned == Supervisor && SameFields(f, Placeholder(commit, repo)) then Ok(None)
        else Refused
    case _ => Refused
  }

  // ---- the mission -----------------------------------------------------------------------

  const Schema := 4
  const SupervisorWireSchema := 3
  const Pending := "pending"
  const Confirmed := "confirmed"
  const RolledBack := "rolled_back"

  datatype Mission = Mission(
    schemaVersion: int, generation: int, status: string, commit: string, previousCommit: string,
    deadline: Double, repo: string, uvPath: string, stopGrace: Double, gitTimeout: Double,
    previousRetiring: bool, previousMeta: WorkerMeta, newMeta: Option<WorkerMeta>, owned: Owner,
    restartMeta: Option<WorkerMeta>, restartReleased: bool)

  function OwnerJson(o: Owner): Json {
    match o
    case Supervisor => Bool(true)
    case Controller => Bool(false)
    case Unknown => Null
  }

  function MetaJson(m: Option<WorkerMeta>): Json { if m.Some? then Obj(MetaFields(m.value)) else Null }

  /** Supervisor-owned missions go out under schema 3 with the descriptor for a candidate. */
  function MissionFields(m: Mission): Fields {
    map[
      "schema_version" := Int(if m.owned == Supervisor then SupervisorWireSchema else m.schemaVersion),
      "generation" := Int(m.generation),
      "status" := Str(m.status),
      "commit" := Str(m.commit),
      "previous_commit" := Str(m.previousCommit),
      "deadline" := Float(m.deadline),
      "repo" := Str(m.repo),
      "uv_path" := Str(m.uvPath),
      "stop_grace_seconds" := Float(m.stopGrace),
      "git_timeout_seconds" := Float(m.gitTimeout),
      "previous_retiring" := Bool(m.previousRetiring),
      "previous_meta" := Obj(MetaFields(m.previousMeta)),
      "new_meta" := if m.owned == Supervisor then Obj(MetaFields(Descriptor(m.commit, m.repo)))
        else MetaJson(m.newMeta),
      "supervisor_owned" := OwnerJson(m.owned),
      "previous_restart_meta" := MetaJson(m.restartMeta),
      "previous_restart_released" := Bool(m.restartReleased)]
  }

  predicate IsCommit(s: string) {
    |s| == 40 && forall i :: 0 <= i < |s| ==> '0' <= s[i] <= '9' || 'a' <= s[i] <= 'f'
  }

  function ParseOwner(f: Fields): Result<Owner> {
    match Get(f, "supervisor_owned")
    case Null => Ok(Unknown)
    case Bool(b) => Ok(if b then Supervisor else Controller)
    case _ => Refused
  }

  /** A finite number; the readers add their own bound. */
  function Finite(f: Fields, key: string): Result<Double> {
    match Get(f, key)
    case Int(i) => Ok(FromInt(i))
    case Float(d) => Ok(d)
    case _ => Refused
  }

  function Flag(f: Fields, key: string): Result<bool> {
    if key !in f then Ok(false) else if f[key].Bool? then Ok(f[key].b) else Refused
  }

  /** A recorded restart belongs to a pending controller-owned mission and names a running worker of
      its repository and previous commit. */
  predicate RestartAllowed(meta: WorkerMeta, owned: Owner, status: string, repo: string, previous: string) {
    && owned == Controller && status == Pending && meta.state == Running
    && meta.repo == repo && meta.gitCommit == Some(previous)
  }

  function ParseRestart(f: Fields, owned: Owner, status: string, repo: string, previous: string)
    : Result<(Option<WorkerMeta>, bool)>
  {
    var released := Flag(f, "previous_restart_released");
    if released.Refused? then Refused
    else
      match Get(f, "previous_restart_meta")
      case Null => if released.value then Refused else Ok((None, false))
      case Obj(g) =>
        var meta := ParseMeta(g);
        if meta.Refused? || !RestartAllowed(meta.value, owned, status, repo, previous) then Refused
        else Ok((Some(meta.value), released.value))
      case _ => Refused
  }

  /** The fields that are read without reference to one another. */
  datatype Plain = Plain(
    version: int, generation: int, status: string, commit: string, previous: string, deadline: Double, repo: string,
    uvPath: string, stopGrace: Double, gitTimeout: Double, retiring: bool, owned: Owner)

  function ParsePlain(f: Fields): Result<Plain> {
    var version, generation, status := Get(f, "schema_version"), Get(f, "generation"), Get(f, "status");
    var commit, previous := Get(f, "commit"), Get(f, "previous_commit");
    var repo, uv := Get(f, "repo"), Get(f, "uv_path");
    var deadline, grace, git := Finite(f, "deadline"), Finite(f, "stop_grace_seconds"),
                                Finite(f, "git_timeout_seconds");
    var retiring, owned := Flag(f, "previous_retiring"), ParseOwner(f);
    if version.Int? && generation.Int? && generation.i >= 1
       && status.Str? && (status.s == Pending || status.s == Confirmed || status.s == RolledBack)
       && commit.Str? && IsCommit(commit.s) && previous.Str? && IsCommit(previous.s) && repo.Str? && uv.Str?
       && deadline.Ok? && NotNegative(deadline.value) && grace.Ok? && Positive(grace.value)
       && git.Ok? && Positive(git.value)
       && retiring.Ok? && owned.Ok?
    then Ok(Plain(version.i, generation.i, status.s, commit.s, previous.s, deadline.value, repo.s, uv.s,
                  grace.value, git.value, retiring.value, owned.value))
    else Refused
  }

  function ParseMission(f: Fields): Result<Mission> {
    var plain := ParsePlain(f);
    if plain.Refused? || !Get(f, "previous_meta").Obj? || "new_meta" !in f then Refused
    else
      var p := plain.value;
      var previous := ParseMeta(f["previous_meta"].fields);
      var candidate := ParseCandidate(f["new_meta"], p.owned, p.commit, p.repo);
      var restart := ParseRestart(f, p.owned, p.status, p.repo, p.previous);
      if previous.Refused? || candidate.Refused? || restart.Refused? then Refused
      else Ok(Mission(p.version, p.generation, p.status, p.commit, p.previous, p.deadline, p.repo, p.uvPath,
                      p.stopGrace, p.gitTimeout, p.retiring, previous.value, candidate.value, p.owned,
                      restart.value.0, restart.value.1))
  }

  /** The same file with what later schemas added spelled out as unset. */
  function SpelledOut(f: Fields): Fields {
    f["previous_retiring" := Bool(false)]["previous_restart_meta" := Null]["previous_restart_released" := Bool(false)]
      ["supervisor_owned" := Null]
  }

  /** A file of an older schema, without the retirement, restart and ownership keys, reads as one with the
      previous worker not retiring, no restart recorded and unknown ownership. */
  lemma AbsentIsUnset(f: Fields)
    requires "previous_retiring" !in f && "previous_restart_meta" !in f && "previous_restart_released" !in f
    requires "supervisor_owned" !in f
    ensures ReadFields(f) == ReadFields(SpelledOut(f))
    ensures ReadFields(f).Ok? ==>
            var m := ReadFields(f).value;
            m.owned == Unknown && !m.previousRetiring && m.restartMeta.None? && !m.restartReleased
  {
    var g := SpelledOut(f);
    PlainUnset(f);
    if ParsePlain(f).Ok? {
      var p := ParsePlain(f).value;
      RestartUnset(f, p.owned, p.status, p.repo, p.previous);
    }
    assert Get(f, "previous_meta") == Get(g, "previous_meta") && ("new_meta" in f <==> "new_meta" in g);
    assert "new_meta" in f ==> f["new_meta"] == g["new_meta"];
  }

  lemma PlainUnset(f: Fields)
    requires "previous_retiring" !in f && "supervisor_owned" !in f
    ensures ParsePlain(f) == ParsePlain(SpelledOut(f))
    ensures ParsePlain(f).Ok? ==> ParsePlain(f).value.owned == Unknown && !ParsePlain(f).value.retiring
  {
    var g := SpelledOut(f);
    assert Flag(f, "previous_retiring") == Flag(g, "previous_retiring") == Ok(false);
    assert ParseOwner(f) == ParseOwner(g) == Ok(Unknown);
  }

  lemma RestartUnset(f: Fields, owned: Owner, status: string, repo: string, previous: string)
    requires "previous_restart_meta" !in f && "previous_restart_released" !in f
    ensures ParseRestart(f, owned, status, repo, previous) == Ok((None, false))
    ensures ParseRestart(SpelledOut(f), owned, status, repo, previous) == Ok((None, false))
  {}

  function Normalize(m: Mission): Result<Mission> {
    if m.schemaVersion == Schema then Ok(m)
    else if m.schemaVersion == 2 || m.schemaVersion == 3 then Ok(m.(schemaVersion := Schema))
    else Refused
  }

  function ReadFields(f: Fields): Result<Mission> {
    var m := ParseMission(f);
    if m.Ok? then Normalize(m.value) else Refused
  }

  /** The mission file: absent, or a text. */
  function ReadMission(c: Codec, text: Option<string>): Result<Option<Mission>> {
    match text
    case None => Ok(None)
    case Some(t) =>
      match c.parse(t)
      case Some(Obj(f)) => (match ReadFields(f) case Ok(m) => Ok(Some(m)) case Refused => Refused)
      case _ => Refused
  }

  // ---- well-formed missions --------------------------------------------------------------

  predicate PlainWell(m: Mission) {
    && m.schemaVersion == Schema && m.generation >= 1
    && (m.status == Pending || m.status == Confirmed || m.status == RolledBack)
    && IsCommit(m.commit) && IsCommit(m.previousCommit)
    && NotNegative(m.deadline) && Positive(m.stopGrace) && Positive(m.gitTimeout)
  }

  /** A supervisor-owned mission records no candidate process; any other records a real one. */
  predicate CandidateWell(m: Mission) {
    if m.owned == Supervisor then m.newMeta == None
    else m.newMeta.Some? && ValidMeta(m.newMeta.value) && m.newMeta.value != Descriptor(m.commit, m.repo)
  }

  predicate RestartWell(m: Mission) {
    if m.restartMeta.None? then !m.restartReleased
    else
      && ValidMeta(m.restartMeta.value)
      && RestartAllowed(m.restartMeta.value, m.owned, m.status, m.repo, m.previousCommit)
  }

  predicate WellFormed(m: Mission) {
    PlainWell(m) && ValidMeta(m.previousMeta) && CandidateWell(m) && RestartWell(m)
  }

  lemma SameGet(f: Fields, g: Fields, key: string)
    requires SameFields(f, g)
    ensures SameValue(Get(f, key), Get(g, key))
  {}

  lemma IntsApart(f: Fields, g: Fields, key: string, x: Option<int>, y: Option<int>)
    requires SameFields(f, g) && Get(f, key) == IntJson(x) && Get(g, key) == IntJson(y)
    ensures x == y
  {
    SameGet(f, g, key);
  }

  lemma TextsApart(f: Fields, g: Fields, key: string, x: Option<string>, y: Option<string>)
    requires SameFields(f, g) && Get(f, key) == StrJson(x) && Get(g, key) == StrJson(y)
    ensures x == y
  {
    SameGet(f, g, key);
  }

  lemma FloatsApart(f: Fields, g: Fields, key: string, x: Option<Double>, y: Option<Double>)
    requires SameFields(f, g) && Get(f, key) == FloatJson(x) && Get(g, key) == FloatJson(y)
    ensures x == y
  {
    SameGet(f, g, key);
  }

  lemma IdentityApart(f: Fields, a: WorkerMeta, g: Fields, b: WorkerMeta)
    requires IdentityStored(f, a) && IdentityStored(g, b) && SameFields(f, g)
    ensures a.pid == b.pid && a.pgid == b.pgid && a.sid == b.sid && a.startTimeTicks == b.startTimeTicks
    ensures a.schemaVersion == b.schemaVersion && a.state == b.state
  {
    IntsApart(f, g, "schema_version", Some(a.schemaVersion), Some(b.schemaVersion));
    TextsApart(f, g, "state", Some(a.state), Some(b.state));
    IntsApart(f, g, "pid", a.pid, b.pid);
    IntsApart(f, g, "pgid", a.pgid, b.pgid);
    IntsApart(f, g, "sid", a.sid, b.sid);
    IntsApart(f, g, "start_time_ticks", a.startTimeTicks, b.startTimeTicks);
  }

  lemma OriginApart(f: Fields, a: WorkerMeta, g: Fields, b: WorkerMeta)
    requires OriginStored(f, a) && OriginStored(g, b) && SameFields(f, g)
    ensures a.token == b.token && a.repo == b.repo && a.gitCommit == b.gitCommit && a.workerId == b.workerId
    ensures a.logPath == b.logPath && a.startedAt == b.startedAt && a.stoppedAt == b.stoppedAt
  {
    TextsApart(f, g, "token", a.token, b.token);
    TextsApart(f, g, "repo", Some(a.repo), Some(b.repo));
    TextsApart(f, g, "git_commit", a.gitCommit, b.gitCommit);
    TextsApart(f, g, "worker_id", a.workerId, b.workerId);
    TextsApart(f, g, "log_path", Some(a.logPath), Some(b.logPath));
    FloatsApart(f, g, "started_at", a.startedAt, b.startedAt);
    FloatsApart(f, g, "stopped_at", a.stoppedAt, b.stoppedAt);
  }

  /** No other metadata is stored as anything the host language calls equal. */
  lemma MetaFieldsInjective(a: WorkerMeta, b: WorkerMeta)
    ensures SameFields(MetaFields(a), MetaFields(b)) <==> a == b
  {
    MetaLookup(a);
    MetaLookup(b);
    if SameFields(MetaFields(a), MetaFields(b)) {
      IdentityApart(MetaFields(a), a, MetaFields(b), b);
      OriginApart(MetaFields(a), a, MetaFields(b), b);
    }
  }

  // ---- round trips -----------------------------------------------------------------------

  ghost predicate NamesStored(f: Fields, m: Mission) {
    && Get(f, "schema_version") == Int(if m.owned == Supervisor then SupervisorWireSchema else m.schemaVersion)
    && Get(f, "generation") == Int(m.generation) && Get(f, "status") == Str(m.status)
  }

  ghost predicate SourceStored(f: Fields, m: Mission) {
    && Get(f, "commit") == Str(m.commit) && Get(f, "previous_commit") == Str(m.previousCommit)
    && Get(f, "repo") == Str(m.repo) && Get(f, "supervisor_owned") == OwnerJson(m.owned)
  }

  ghost predicate SettingsStored(f: Fields, m: Mission) {
    && Get(f, "deadline") == Float(m.deadline) && Get(f, "uv_path") == Str(m.uvPath)
    && Get(f, "stop_grace_seconds") == Float(m.stopGrace) && Get(f, "git_timeout_seconds") == Float(m.gitTimeout)
    && "previous_retiring" in f && f["previous_retiring"] == Bool(m.previousRetiring)
  }

  ghost predicate PlainStored(f: Fields, m: Mission) { NamesStored(f, m) && SourceStored(f, m) && SettingsStored(f, m) }

  ghost predicate PartsStored(f: Fields, m: Mission) {
    && Get(f, "previous_meta") == Obj(MetaFields(m.previousMeta))
    && "new_meta" in f
    && f["new_meta"] == (if m.owned == Supervisor then Obj(MetaFields(Descriptor(m.commit, m.repo)))
       else MetaJson(m.newMeta))
    && Get(f, "previous_restart_meta") == MetaJson(m.restartMeta)
    && "previous_restart_released" in f && f["previous_restart_released"] == Bool(m.restartReleased)
  }

  lemma NamesLookup(m: Mission)
    ensures NamesStored(MissionFields(m), m)
  {}

  lemma SourceLookup(m: Mission)
    ensures SourceStored(MissionFields(m), m)
  {}

  lemma SettingsLookup(m: Mission)
    ensures SettingsStored(MissionFields(m), m)
  {}

  lemma PartsLookup(m: Mission)
    ensures PartsStored(MissionFields(m), m)
  {}

  predicate PlainReadable(m: Mission) {
    PlainWell(m.(schemaVersion := Schema))
  }

  lemma PlainReadsBack(f: Fields, m: Mission)
    requires PlainStored(f, m)
    ensures ParsePlain(f) ==
      if PlainReadable(m)
      then Ok(Plain(if m.owned == Supervisor then SupervisorWireSchema else m.schemaVersion, m.generation, m.status,
                    m.commit, m.previousCommit, m.deadline, m.repo, m.uvPath, m.stopGrace, m.gitTimeout,
                    m.previousRetiring, m.owned))
      else Refused
  {}

  /** What a stored candidate reads back as. */
  function CandidateRead(m: Mission): Result<Option<WorkerMeta>> {
    if m.owned == Supervisor then Ok(None)
    else if m.newMeta.None? || !ValidMeta(m.newMeta.value) || m.newMeta.value == Descriptor(m.commit, m.repo)
      then Refused
    else Ok(m.newMeta)
  }

  lemma CandidateReadsBack(f: Fields, m: Mission)
    requires PartsStored(f, m)
    ensures ParseCandidate(f["new_meta"], m.owned, m.commit, m.repo) == CandidateRead(m)
  {
    var d := Descriptor(m.commit, m.repo);
    MetaFieldsInjective(d, d);
    if m.owned != Supervisor && m.newMeta.Some? {
      MetaFieldsInjective(m.newMeta.value, d);
      MetaRoundTrip(m.newMeta.value);
    }
  }

  lemma RestartReadsBack(f: Fields, m: Mission)
    requires PartsStored(f, m)
    ensures ParseRestart(f, m.owned, m.status, m.repo, m.previousCommit) ==
      if RestartWell(m) then Ok((m.restartMeta, m.restartReleased)) else Refused
  {
    if m.restartMeta.Some? {
      MetaRoundTrip(m.restartMeta.value);
    }
  }

  /** Exactly what a stored mission reads back as, for every mission whatever. */
  function ReadBack(m: Mission): Result<Mission> {
    if PlainReadable(m) && ValidMeta(m.previousMeta) && CandidateRead(m).Ok? && RestartWell(m)
       && (m.owned == Supervisor || m.schemaVersion == 2 || m.schemaVersion == 3 || m.schemaVersion == Schema)
    then Ok(m.(schemaVersion := Schema, newMeta := CandidateRead(m).value))
    else Refused
  }

  lemma StoredMissionReads(m: Mission)
    ensures ReadFields(MissionFields(m)) == ReadBack(m)
  {
    var f := MissionFields(m);
    NamesLookup(m);
    SourceLookup(m);
    SettingsLookup(m);
    PartsLookup(m);
    StoredPartsRead(f, m);
  }

  lemma StoredPartsRead(f: Fields, m: Mission)
    requires PlainStored(f, m) && PartsStored(f, m)
    ensures ReadFields(f) == ReadBack(m)
  {
    PlainReadsBack(f, m);
    MetaRoundTrip(m.previousMeta);
    CandidateReadsBack(f, m);
    RestartReadsBack(f, m);
  }

  /** A mission survives being written and read if and only if it is well-formed; a
      supervisor-owned one does so through schema 3 and the descriptor. */
  lemma MissionRoundTrip(c: Codec, m: Mission)
    requires Faithful(c)
    ensures ReadMission(c, Some(c.write(Obj(MissionFields(m))))) == Ok(Some(m)) <==> WellFormed(m)
  {
    StoredMissionReads(m);
    TextReads(c, MissionFields(m));
    ReadsBackIffWell(m);
  }

  lemma TextReads(c: Codec, f: Fields)
    requires Faithful(c)
    ensures ReadMission(c, Some(c.write(Obj(f)))) ==
            match ReadFields(f) case Ok(m) => Ok(Some(m)) case Refused => Refused
  {
    assert c.parse(c.write(Obj(f))) == Some(Obj(f));
  }

  lemma ReadsBackIffWell(m: Mission)
    ensures ReadBack(m) == Ok(m) <==> WellFormed(m)
  {}

  /** On disk a supervisor-owned mission carries schema 3 and no process identity of a candidate. */
  lemma SupervisorWireForm(m: Mission)
    requires m.owned == Supervisor
    ensures Get(MissionFields(m), "schema_version") == Int(SupervisorWireSchema)
    ensures Get(MissionFields(m), "new_meta") == Obj(MetaFields(Descriptor(m.commit, m.repo)))
  {
    NamesLookup(m);
    PartsLookup(m);
  }

  /** A mission read from any file at all, written again and read: the same mission, with a
      supervisor-owned candidate dropped — unless its candidate says exactly what the
      compatibility descriptor says although the supervisor does not own it. */
  lemma RewriteReads(f: Fields)
    requires ReadFields(f).Ok?
    ensures var m := ReadFields(f).value;
            ReadFields(MissionFields(m)) ==
            if m.owned == Supervisor then Ok(m.(newMeta := None))
            else if m.newMeta == Some(Descriptor(m.commit, m.repo)) then Refused
            else Ok(m)
  {
    var m := ReadFields(f).value;
    ParsedParts(f);
    StoredMissionReads(m);
  }

  /** A candidate record that leaves out what the descriptor states as null. */
  function Lookalike(commit: string, repo: string): Fields {
    map["schema_version" := Int(MetaSchema), "state" := Str(Stopped), "repo" := Str(repo), "git_commit" := Str(commit)]
  }

  lemma LookalikeReads(m: Mission)
    ensures ParseCandidate(Obj(Lookalike(m.commit, m.repo)), Controller, m.commit, m.repo) ==
            Ok(Some(Descriptor(m.commit, m.repo)))
  {
    var f, d := Lookalike(m.commit, m.repo), Descriptor(m.commit, m.repo);
    MetaLookup(d);
    assert "token" !in f && "token" in MetaFields(d);
    assert "log_path" !in f;
    assert ParseMeta(f) == Ok(d);
  }

  /** The exception is real: such a candidate is accepted once in the file of any controller-owned
      mission, and the next write of that mission makes it unreadable. */
  lemma LookalikeLost(m: Mission)
    requires WellFormed(m) && m.owned == Controller
    ensures var f := MissionFields(m)["new_meta" := Obj(Lookalike(m.commit, m.repo))];
            && ReadFields(f) == Ok(m.(newMeta := Some(Descriptor(m.commit, m.repo))))
            && ReadFields(MissionFields(ReadFields(f).value)) == Refused
  {
    var f := MissionFields(m)["new_meta" := Obj(Lookalike(m.commit, m.repo))];
    NamesLookup(m);
    SourceLookup(m);
    SettingsLookup(m);
    PartsLookup(m);
    LookalikeReads(m);
    CandidateReplaced(MissionFields(m), m, Obj(Lookalike(m.commit, m.repo)), Some(Descriptor(m.commit, m.repo)));
    RewriteReads(f);
  }

  lemma ElsewherePlain(f: Fields, m: Mission, j: Json)
    requires PlainStored(f, m)
    ensures PlainStored(f["new_meta" := j], m)
  {}

  lemma ElsewhereParts(f: Fields, m: Mission, j: Json)
    requires PartsStored(f, m)
    ensures var g := f["new_meta" := j];
            && Get(g, "previous_meta") == Obj(MetaFields(m.previousMeta))
            && ParseRestart(g, m.owned, m.status, m.repo, m.previousCommit)
               == ParseRestart(f, m.owned, m.status, m.repo, m.previousCommit)
  {}

  lemma CandidateReplaced(f: Fields, m: Mission, j: Json, meta: Option<WorkerMeta>)
    requires PlainStored(f, m) && PartsStored(f, m) && WellFormed(m) && m.owned == Controller
    requires ParseCandidate(j, m.owned, m.commit, m.repo) == Ok(meta)
    ensures ReadFields(f["new_meta" := j]) == Ok(m.(newMeta := meta))
  {
    var g := f["new_meta" := j];
    ElsewherePlain(f, m, j);
    ElsewhereParts(f, m, j);
    PlainReadsBack(g, m);
    MetaRoundTrip(m.previousMeta);
    RestartReadsBack(f, m);
  }

  lemma ParsedParts(f: Fields)
    requires ReadFields(f).Ok?
    ensures var m := ReadFields(f).value;
            && PlainWell(m) && ValidMeta(m.previousMeta) && RestartWell(m)
            && (m.newMeta.Some? ==> ValidMeta(m.newMeta.value))
            && (m.newMeta.None? ==> m.owned == Supervisor)
  {
    ParsedPlain(f);
    ParsedMetaValid(f["previous_meta"].fields);
    var p := ParsePlain(f).value;
    ParsedCandidate(f["new_meta"], p.owned, p.commit, p.repo);
    ParsedRestart(f, p.owned, p.status, p.repo, p.previous);
  }

  lemma ParsedPlain(f: Fields)
    requires ParsePlain(f).Ok?
    ensures var p := ParsePlain(f).value;
            && p.generation >= 1 && (p.status == Pending || p.status == Confirmed || p.status == RolledBack)
            && IsCommit(p.commit) && IsCommit(p.previous)
            && NotNegative(p.deadline) && Positive(p.stopGrace) && Positive(p.gitTimeout)
  {}

  lemma ParsedCandidate(j: Json, owned: Owner, commit: string, repo: string)
    requires ParseCandidate(j, owned, commit, repo).Ok?
    ensures var r := ParseCandidate(j, owned, commit, repo).value;
            (r.Some? ==> ValidMeta(r.value)) && (r.None? ==> owned == Supervisor)
  {
    if j.Obj? && ParseMeta(j.fields).Ok? {
      ParsedMetaValid(j.fields);
    }
  }

  lemma ParsedRestart(f: Fields, owned: Owner, status: string, repo: string, previous: string)
    requires ParseRestart(f, owned, status, repo, previous).Ok?
    ensures var r := ParseRestart(f, owned, status, repo, previous).value;
            if r.0.None? then !r.1
            else ValidMeta(r.0.value) && RestartAllowed(r.0.value, owned, status, repo, previous)
  {
    var j := Get(f, "previous_restart_meta");
    if j.Obj? {
      ParsedMetaValid(j.fields);
    }
  }

  // ---- publication -----------------------------------------------------------------------

  /** The mission a checkout prepares: supervisor-owned exactly when no candidate was spawned. */
  function Published(
    generation: int, commit: string, previous: WorkerMeta, deadline: Double, repo: string, uvPath: string,
    stopGrace: Double, gitTimeout: Double, candidate: Option<WorkerMeta>): Mission
    requires previous.gitCommit.Some?
  {
    Mission(Schema, generation, Pending, commit, previous.gitCommit.value, deadline, repo, uvPath, stopGrace,
      gitTimeout,
            false, previous, candidate, if candidate.None? then Supervisor else Controller, None, false)
  }

  /** A published mission is well-formed if and only if its numbers, commits and worker records are;
      a spawned candidate is running, so it is never taken for the descriptor. */
  lemma PublishedWellFormed(
    generation: int, commit: string, previous: WorkerMeta, deadline: Double, repo: string, uvPath: string,
    stopGrace: Double, gitTimeout: Double, candidate: Option<WorkerMeta>)
    requires previous.gitCommit.Some? && (candidate.Some? ==> candidate.value.state == Running)
    ensures WellFormed(Published(generation, commit, previous, deadline, repo, uvPath, stopGrace, gitTimeout,
                                 candidate)) <==>
      && generation >= 1 && IsCommit(commit) && IsCommit(previous.gitCommit.value)
      && NotNegative(deadline) && Positive(stopGrace) && Positive(gitTimeout)
      && ValidMeta(previous) && (candidate.Some? ==> ValidMeta(candidate.value))
  {}

  // ---- the rewrites of the deployment steps ----------------------------------------------

  datatype Rewrite =
    | Refresh(deadline: Double)            // the candidate went live
    | Retire                             // the previous worker is about to be stopped
    | PrepareRestart(meta: WorkerMeta)   // a gated previous-commit worker was spawned
    | ReleaseRestart
    | ClearRestart
    | RollBackLegacy
    | Finish(status: string)             // confirmation, supervised rollback, archival

  function Rewritten(m: Mission, r: Rewrite): Mission {
    match r
    case Refresh(deadline) => m.(deadline := deadline)
    case Retire => m.(previousRetiring := true)
    case PrepareRestart(meta) => m.(restartMeta := Some(meta), restartReleased := false)
    case ReleaseRestart => m.(restartReleased := true)
    case ClearRestart => m.(restartMeta := None, restartReleased := false)
    case RollBackLegacy => m.(status := RolledBack, restartMeta := None, restartReleased := false)
    case Finish(status) => m.(status := status)
  }

  predicate Terminal(status: string) { status == Confirmed || status == RolledBack }

  /** What the step that makes the rewrite has established, nothing more. */
  predicate Made(m: Mission, r: Rewrite) {
    match r
    case Refresh(deadline) => NotNegative(deadline)
    case PrepareRestart(meta) =>
      && m.owned == Controller && m.status == Pending && ValidMeta(meta)
      && meta.state == Running && meta.repo == m.repo && meta.gitCommit == Some(m.previousCommit)
    case ReleaseRestart => m.restartMeta.Some?
    case Finish(status) => Terminal(status)
    case _ => true
  }

  /** A step keeps a mission well-formed if and only if it does not finish one that still records a
      restart. */
  lemma RewriteStaysWellFormed(m: Mission, r: Rewrite)
    requires WellFormed(m) && Made(m, r)
    ensures WellFormed(Rewritten(m, r)) <==> !(r.Finish? && m.restartMeta.Some?)
  {}

  /** Archival keeps a recorded restart, so the archived mission cannot be read any more: exactly the
      missions without one survive being archived. */
  lemma ArchiveReadableIff(c: Codec, m: Mission, status: string)
    requires Faithful(c) && WellFormed(m) && Terminal(status)
    ensures var archived := Rewritten(m, Finish(status));
            var read := ReadMission(c, Some(c.write(Obj(MissionFields(archived)))));
            if m.restartMeta.None? then read == Ok(Some(archived)) else read == Refused
  {
    var archived := Rewritten(m, Finish(status));
    RewriteStaysWellFormed(m, Finish(status));
    TextReads(c, MissionFields(archived));
    StoredMissionReads(archived);
    ReadsBackIffWell(archived);
  }

  function AfterAll(m: Mission, rs: seq<Rewrite>): Mission {
    if rs == [] then m else Rewritten(AfterAll(m, rs[..|rs| - 1]), rs[|rs| - 1])
  }

  ghost predicate AllMade(m: Mission, rs: seq<Rewrite>) {
    forall i :: 0 <= i < |rs| ==>
      var at := AfterAll(m, rs[..i]);
      Made(at, rs[i]) && !(rs[i].Finish? && at.restartMeta.Some?)
  }

  predicate Keeps(m: Mission, now: Mission) {
    && now.generation == m.generation && now.commit == m.commit && now.previousCommit == m.previousCommit
    && now.owned == m.owned && now.repo == m.repo
    && now.previousMeta == m.previousMeta && now.newMeta == m.newMeta
  }

  lemma {:induction false} RewritesStayWellFormed(m: Mission, rs: seq<Rewrite>)
    requires WellFormed(m) && AllMade(m, rs)
    ensures WellFormed(AfterAll(m, rs)) && Keeps(m, AfterAll(m, rs))
  {
    if rs != [] {
      var n := |rs| - 1;
      var front := rs[..n];
      forall i | 0 <= i < |front|
        ensures var at := AfterAll(m, front[..i]); Made(at, front[i]) && !(front[i].Finish? && at.restartMeta.Some?)
      {
        assert front[..i] == rs[..i];
      }
      RewritesStayWellFormed(m, front);
      RewriteStaysWellFormed(AfterAll(m, front), rs[n]);
    }
  }

  /** Every mission a deployment writes, from publication on through any steps, reads back as itself;
      the steps never touch its generation, commits, ownership, repository or recorded workers. */
  lemma EveryWriteReadsBack(c: Codec, m: Mission, rs: seq<Rewrite>)
    requires Faithful(c) && WellFormed(m) && AllMade(m, rs)
    ensures var now := AfterAll(m, rs);
            Keeps(m, now) && ReadMission(c, Some(c.write(Obj(MissionFields(now))))) == Ok(Some(now))
  {
    RewritesStayWellFormed(m, rs);
    MissionRoundTrip(c, AfterAll(m, rs));
  }
}
