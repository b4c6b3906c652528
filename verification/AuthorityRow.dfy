/** The database-backed lifecycle authority row: its sections, the canonical text a row
    is stored as, the strict version-2 reader and the one-time version-1 reader.
    Models src/lubko/lifecycle_authority.py. */
module AuthorityRow {
  import opened Common
  import Unicode

  const AUTHORITY_TYPE := "lifecycle_authority"
  const AUTHORITY_VERSION := 2
  const LEGACY_AUTHORITY_VERSION := 1
  const AUTHORITY_MAX_BYTES := 4096

  /** The exact incarnation holding a fencing epoch. */
  datatype Owner = Owner(pid: int, ticks: int, bootId: string)

  /** A pre-spawn obligation; a missing pid names a child whose identity was never published. */
  datatype Spawn = Spawn(
    token: string, commit: string, creatorPid: int, creatorTicks: int,
    bootId: Option<string>, pid: Option<int>, ticks: Option<int>, parentDeathSignal: bool)

  /** The published maintained worker. */
  datatype Worker = Worker(
    token: string, commit: string, pid: int, pgid: int, sid: int, ticks: int, workerId: string)

  datatype Row = Row(
    server: string, epoch: int, generation: int,
    owner: Option<Owner>, spawn: Option<Spawn>, worker: Option<Worker>)

  /* ---- What each section demands of its fields ---- */

  predicate ValidOwner(o: Owner) { o.pid > 0 && o.ticks >= 0 && o.bootId != "" }

  predicate ValidSpawn(s: Spawn) {
    && s.token != "" && s.commit != "" && s.creatorPid >= 0 && s.creatorTicks >= 0
    && (s.bootId.Some? ==> s.bootId.value != "")
    && (s.pid.Some? ==> s.pid.value >= 0)
    && (s.ticks.Some? ==> s.ticks.value >= 0)
  }

  predicate ValidWorker(w: Worker) {
    && w.token != "" && w.commit != "" && w.workerId != ""
    && w.pid > 0 && w.pgid >= 0 && w.sid >= 0 && w.ticks >= 0
  }

  predicate ValidSections(r: Row) {
    && r.server != "" && r.epoch >= 0 && r.generation >= 0
    && (r.owner.Some? ==> ValidOwner(r.owner.value))
    && (r.spawn.Some? ==> ValidSpawn(r.spawn.value))
    && (r.worker.Some? ==> ValidWorker(r.worker.value))
  }

  /** An obligation and a published worker never share a row. */
  predicate Exclusive(r: Row) { r.spawn.None? || r.worker.None? }

  /* ---- Writing ---- */

  function OptStr(v: Option<string>): Json { if v.None? then Null else Str(v.value) }
  function OptInt(v: Option<int>): Json { if v.None? then Null else Int(v.value) }

  function OwnerJson(o: Option<Owner>): Json {
    if o.None? then Null else
      Obj(map["pid" := Int(o.value.pid), "start_time_ticks" := Int(o.value.ticks),
              "boot_id" := Str(o.value.bootId)])
  }

  function SpawnJson(o: Option<Spawn>): Json {
    if o.None? then Null else
      var s := o.value;
      Obj(map["token" := Str(s.token), "commit" := Str(s.commit),
              "creator_pid" := Int(s.creatorPid), "creator_start_time_ticks" := Int(s.creatorTicks),
              "boot_id" := OptStr(s.bootId), "pid" := OptInt(s.pid),
              "start_time_ticks" := OptInt(s.ticks),
              "parent_death_signal" := Bool(s.parentDeathSignal)])
  }

  function WorkerJson(o: Option<Worker>): Json {
    if o.None? then Null else
      var w := o.value;
      Obj(map["token" := Str(w.token), "commit" := Str(w.commit), "pid" := Int(w.pid),
              "pgid" := Int(w.pgid), "sid" := Int(w.sid), "start_time_ticks" := Int(w.ticks),
              "worker_id" := Str(w.workerId)])
  }

  function RowJson(r: Row): Json {
    Obj(map["v" := Int(AUTHORITY_VERSION), "type" := Str(AUTHORITY_TYPE), "server" := Str(r.server),
            "epoch" := Int(r.epoch), "generation" := Int(r.generation),
            "owner" := OwnerJson(r.owner), "spawn" := SpawnJson(r.spawn),
            "worker" := WorkerJson(r.worker)])
  }

  /** Serialize a row; a field violation or an overlong text is refused. */
  function CanonicalText(c: Codec, r: Row): Result<string> {
    if !ValidSections(r) then Refused else
      var text := c.write(RowJson(r));
      if |Unicode.Utf8(text)| > AUTHORITY_MAX_BYTES then Refused else Ok(text)
  }

  /* ---- Reading ---- */

  predicate IsNat(j: Json) { j.Int? && j.i >= 0 }
  predicate IsPositive(j: Json) { j.Int? && j.i > 0 }
  predicate IsName(j: Json) { j.Str? && j.s != "" }
  predicate IsOptName(j: Json) { j == Null || IsName(j) }
  predicate IsOptNat(j: Json) { j == Null || IsNat(j) }

  function AsOptStr(j: Json): Option<string> requires IsOptName(j) {
    if j == Null then None else Some(j.s)
  }
  function AsOptInt(j: Json): Option<int> requires IsOptNat(j) {
    if j == Null then None else Some(j.i)
  }

  function ParseOwner(raw: Json): Result<Option<Owner>> {
    if raw == Null then Ok(None)
    else if !raw.Obj? then Refused
    else
      var f := raw.fields;
      if IsPositive(Get(f, "pid")) && IsNat(Get(f, "start_time_ticks")) && IsName(Get(f, "boot_id"))
      then Ok(Some(Owner(Get(f, "pid").i, Get(f, "start_time_ticks").i, Get(f, "boot_id").s)))
      else Refused
  }

  function ParseSpawn(raw: Json): Result<Option<Spawn>> {
    if raw == Null then Ok(None)
    else if !raw.Obj? then Refused
    else
      var f := raw.fields;
      if && IsName(Get(f, "token")) && IsName(Get(f, "commit"))
         && IsNat(Get(f, "creator_pid")) && IsNat(Get(f, "creator_start_time_ticks"))
         && IsOptName(Get(f, "boot_id")) && IsOptNat(Get(f, "pid"))
         && IsOptNat(Get(f, "start_time_ticks")) && Get(f, "parent_death_signal").Bool?
      then Ok(Some(Spawn(
        Get(f, "token").s, Get(f, "commit").s, Get(f, "creator_pid").i,
        Get(f, "creator_start_time_ticks").i, AsOptStr(Get(f, "boot_id")),
        AsOptInt(Get(f, "pid")), AsOptInt(Get(f, "start_time_ticks")),
        Get(f, "parent_death_signal").b)))
      else Refused
  }

  function ParseWorker(raw: Json): Result<Option<Worker>> {
    if raw == Null then Ok(None)
    else if !raw.Obj? then Refused
    else
      var f := raw.fields;
      if && IsName(Get(f, "token")) && IsName(Get(f, "commit")) && IsName(Get(f, "worker_id"))
         && IsPositive(Get(f, "pid")) && IsNat(Get(f, "pgid")) && IsNat(Get(f, "sid"))
         && IsNat(Get(f, "start_time_ticks"))
      then Ok(Some(Worker(
        Get(f, "token").s, Get(f, "commit").s, Get(f, "pid").i, Get(f, "pgid").i,
        Get(f, "sid").i, Get(f, "start_time_ticks").i, Get(f, "worker_id").s)))
      else Refused
  }

  /** A version field matches an integer or the float equal to it, never a boolean. */
  predicate VersionIs(j: Json, v: int) { j == Int(v) || j == Float(FromInt(v)) }

  /** The checks shared by both schema versions, on an already decoded mapping. */
  function ParseSections(f: map<string, Json>, server: string): Result<Row> {
    if Get(f, "type") != Str(AUTHORITY_TYPE) || Get(f, "server") != Str(server) then Refused
    else if !IsNat(Get(f, "epoch")) || !IsNat(Get(f, "generation")) then Refused
    else
      var owner := ParseOwner(Get(f, "owner"));
      var spawn := ParseSpawn(Get(f, "spawn"));
      var worker := ParseWorker(Get(f, "worker"));
      if owner.Refused? || spawn.Refused? || worker.Refused? then Refused
      else if spawn.value.Some? && worker.value.Some? then Refused
      else Ok(Row(server, Get(f, "epoch").i, Get(f, "generation").i,
                  owner.value, spawn.value, worker.value))
  }

  /** Decode a stored text into a mapping of the wanted version. */
  function DecodeVersion(c: Codec, text: string, version: int): Result<map<string, Json>> {
    if |Unicode.Utf8(text)| > AUTHORITY_MAX_BYTES then Refused
    else match c.parse(text)
      case Some(Obj(f)) => if VersionIs(Get(f, "v"), version) then Ok(f) else Refused
      case _ => Refused
  }

  /** The strict reader of normal operation: version 2 with explicit section keys. */
  function ParseRow(c: Codec, text: string, server: string): Result<Row> {
    match DecodeVersion(c, text, AUTHORITY_VERSION)
    case Refused => Refused
    case Ok(f) =>
      if "spawn" !in f || "worker" !in f then Refused else ParseSections(f, server)
  }

  /** The migration-only reader: version 1, section keys may be absent. */
  function ParseLegacyRow(c: Codec, text: string, server: string): Result<Row> {
    match DecodeVersion(c, text, LEGACY_AUTHORITY_VERSION)
    case Refused => Refused
    case Ok(f) => ParseSections(f, server)
  }

  /* ---- Laws ---- */

  lemma OwnerRoundTrip(o: Option<Owner>)
    ensures ParseOwner(OwnerJson(o)) == if o.None? || ValidOwner(o.value) then Ok(o) else Refused
  {}

  lemma SpawnRoundTrip(o: Option<Spawn>)
    ensures ParseSpawn(SpawnJson(o)) == if o.None? || ValidSpawn(o.value) then Ok(o) else Refused
  {}

  lemma WorkerRoundTrip(o: Option<Worker>)
    ensures ParseWorker(WorkerJson(o)) == if o.None? || ValidWorker(o.value) then Ok(o) else Refused
  {}

  lemma RowFields(r: Row)
    ensures var f := RowJson(r).fields;
            && Get(f, "v") == Int(AUTHORITY_VERSION) && Get(f, "type") == Str(AUTHORITY_TYPE)
            && Get(f, "server") == Str(r.server) && Get(f, "epoch") == Int(r.epoch)
            && Get(f, "generation") == Int(r.generation) && Get(f, "owner") == OwnerJson(r.owner)
            && Get(f, "spawn") == SpawnJson(r.spawn) && Get(f, "worker") == WorkerJson(r.worker)
            && "spawn" in f && "worker" in f
  {}

  lemma SectionsRoundTrip(r: Row, f: map<string, Json>)
    requires ValidSections(r) && f == RowJson(r).fields
    ensures ParseSections(f, r.server) == if Exclusive(r) then Ok(r) else Refused
  {
    RowFields(r);
    OwnerRoundTrip(r.owner);
    SpawnRoundTrip(r.spawn);
    WorkerRoundTrip(r.worker);
  }

  /** A row is stored exactly when its sections are valid and its text fits, and the text
      reads back as that very row exactly when it does not carry both sections. No stored
      text is ever mistaken for a version-1 row. */
  lemma RowRoundTrip(c: Codec, r: Row)
    requires Faithful(c)
    ensures CanonicalText(c, r).Ok? <==>
            ValidSections(r) && |Unicode.Utf8(c.write(RowJson(r)))| <= AUTHORITY_MAX_BYTES
    ensures CanonicalText(c, r).Ok? ==>
            ParseRow(c, CanonicalText(c, r).value, r.server) == if Exclusive(r) then Ok(r) else Refused
    ensures CanonicalText(c, r).Ok? ==>
            ParseLegacyRow(c, CanonicalText(c, r).value, r.server) == Refused
  {
    if CanonicalText(c, r).Ok? {
      var j := RowJson(r);
      assert c.parse(c.write(j)) == Some(j);
      RowFields(r);
      SectionsRoundTrip(r, j.fields);
    }
  }

  /** Whatever either reader accepts is a valid exclusive row of the asked server. */
  lemma ParsedRowIsValid(c: Codec, text: string, server: string)
    requires server != ""
    ensures ParseRow(c, text, server).Ok? ==>
            var r := ParseRow(c, text, server).value;
            ValidSections(r) && Exclusive(r) && r.server == server
    ensures ParseLegacyRow(c, text, server).Ok? ==>
            var r := ParseLegacyRow(c, text, server).value;
            ValidSections(r) && Exclusive(r) && r.server == server
    ensures ParseRow(c, text, server).Refused? || ParseLegacyRow(c, text, server).Refused?
  {}

  /** Distinct rows are stored as distinct texts. */
  lemma CanonicalTextInjective(c: Codec, a: Row, b: Row)
    requires Faithful(c)
    requires CanonicalText(c, a).Ok? && CanonicalText(c, a) == CanonicalText(c, b)
    ensures a == b
  {
    assert c.parse(c.write(RowJson(a))) == Some(RowJson(a));
    assert c.parse(c.write(RowJson(b))) == Some(RowJson(b));
    var fa, fb := RowJson(a).fields, RowJson(b).fields;
    assert fa["epoch"] == fb["epoch"] && fa["generation"] == fb["generation"] && fa["server"] == fb["server"];
    assert fa["owner"] == fb["owner"] && fa["spawn"] == fb["spawn"] && fa["worker"] == fb["worker"];
    OwnerRoundTrip(a.owner); OwnerRoundTrip(b.owner);
    SpawnRoundTrip(a.spawn); SpawnRoundTrip(b.spawn);
    WorkerRoundTrip(a.worker); WorkerRoundTrip(b.worker);
  }

  /** The document says everything that ours says, with the same values. */
  ghost predicate Says(document: Json, ours: Json) {
    if ours.Obj? then
      document.Obj? && forall k :: k in ours.fields ==> Get(document.fields, k) == ours.fields[k]
    else document == ours
  }

  lemma OwnerSays(raw: Json)
    ensures ParseOwner(raw).Ok? ==> Says(raw, OwnerJson(ParseOwner(raw).value))
  {}

  lemma SpawnSays(raw: Json)
    ensures ParseSpawn(raw).Ok? ==> Says(raw, SpawnJson(ParseSpawn(raw).value))
  {
    if ParseSpawn(raw).Ok? && raw.Obj? {
      var f, s := raw.fields, ParseSpawn(raw).value.value;
      assert Get(f, "token") == Str(s.token) && Get(f, "commit") == Str(s.commit);
      assert Get(f, "creator_pid") == Int(s.creatorPid) && Get(f, "creator_start_time_ticks") == Int(s.creatorTicks);
      assert Get(f, "boot_id") == OptStr(s.bootId) && Get(f, "pid") == OptInt(s.pid);
      assert Get(f, "start_time_ticks") == OptInt(s.ticks)
        && Get(f, "parent_death_signal") == Bool(s.parentDeathSignal);
      forall k | k in SpawnJson(Some(s)).fields ensures Get(f, k) == SpawnJson(Some(s)).fields[k] {}
    }
  }

  lemma WorkerSays(raw: Json)
    ensures ParseWorker(raw).Ok? ==> Says(raw, WorkerJson(ParseWorker(raw).value))
  {}

  /** Whatever either reader accepts fits the bound and is a document of the authority type for the asked
      server that says everything the row does; the strict reader also wants both sections named. */
  lemma ReadersAreStrict(c: Codec, text: string, server: string, legacy: bool)
    requires (if legacy then ParseLegacyRow(c, text, server) else ParseRow(c, text, server)).Ok?
    ensures |Unicode.Utf8(text)| <= AUTHORITY_MAX_BYTES
    ensures c.parse(text).Some? && c.parse(text).value.Obj?
    ensures var r := (if legacy then ParseLegacyRow(c, text, server) else ParseRow(c, text, server)).value;
            var f := c.parse(text).value.fields;
            && Get(f, "type") == Str(AUTHORITY_TYPE) && Get(f, "server") == Str(server) && r.server == server
            && VersionIs(Get(f, "v"), if legacy then LEGACY_AUTHORITY_VERSION else AUTHORITY_VERSION)
            && Get(f, "epoch") == Int(r.epoch) && Get(f, "generation") == Int(r.generation)
            && Says(Get(f, "owner"), OwnerJson(r.owner)) && Says(Get(f, "spawn"), SpawnJson(r.spawn))
            && Says(Get(f, "worker"), WorkerJson(r.worker))
            && (!legacy ==> "spawn" in f && "worker" in f)
  {
    var f := c.parse(text).value.fields;
    OwnerSays(Get(f, "owner"));
    SpawnSays(Get(f, "spawn"));
    WorkerSays(Get(f, "worker"));
  }

  /** A row stored for one server is never read for another. */
  lemma ServersApart(c: Codec, r: Row, other: string)
    requires Faithful(c) && CanonicalText(c, r).Ok? && other != r.server
    ensures ParseRow(c, CanonicalText(c, r).value, other).Refused?
    ensures ParseLegacyRow(c, CanonicalText(c, r).value, other).Refused?
  {
    assert c.parse(c.write(RowJson(r))) == Some(RowJson(r));
  }
}
