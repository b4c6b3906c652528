/** The ownership operations of the lifecycle authority. Every one of them reads the stored
    text, decides from that text alone, and commits with a compare-and-swap on the exact
    text it read. Models src/lubko/lifecycle_authority.py. */
module AuthorityOps {
  import opened Common
  import opened AuthorityRow

  /** An incarnation's in-memory fencing-epoch holding. */
  datatype Claim = Claim(epoch: int, holder: Owner)

  /** Local state of the version-1 era that a migration transfers. */
  datatype Evidence = Evidence(
    liveWorker: Option<Worker>, workerAmbiguous: bool, spawn: Option<Spawn>, spawnAmbiguous: bool)

  datatype Op =
    | Take(owner: Owner)
    | CommitSpawn(claim: Claim, spawn: Spawn)
    | ClearSpawn(claim: Claim)
    | Publish(claim: Claim, spawnToken: string, worker: Worker)
    | ClearWorker(claim: Claim, token: string)
    | Migrate(evidence: Evidence)

  /** Either nothing is written (an error, or an answer known from the read alone) or the
      candidate is swapped in for the text that was read. */
  datatype Decision = Raised | Settled(answer: bool) | Swap(candidate: string)

  predicate ClaimMatches(claim: Claim, r: Row) {
    r.epoch == claim.epoch && r.owner == Some(claim.holder)
  }

  /** Read and validate: an absent row is not an error. */
  function Observe(c: Codec, server: string, stored: Option<string>): Result<Option<Row>> {
    if server == "" then Refused
    else if stored.None? then Ok(None)
    else match ParseRow(c, stored.value, server)
      case Ok(r) => Ok(Some(r))
      case Refused => Refused
  }

  function SwapTo(c: Codec, updated: Row): Decision {
    match CanonicalText(c, updated)
    case Ok(text) => Swap(text)
    case Refused => Raised
  }

  /** The sections a migrated row carries: row and evidence must agree where both speak. */
  function MigrationSections(legacy: Row, e: Evidence): Result<(Option<Spawn>, Option<Worker>)> {
    var spawn := if legacy.spawn.Some? then legacy.spawn else e.spawn;
    var worker := if legacy.worker.Some? then legacy.worker else e.liveWorker;
    if legacy.spawn.Some? && e.spawn.Some? && legacy.spawn != e.spawn then Refused
    else if legacy.worker.Some? && e.liveWorker.Some? && legacy.worker != e.liveWorker then Refused
    else if spawn.Some? && worker.Some? then Refused
    else Ok((spawn, worker))
  }

  /** What an operation makes of the row it read: an error, an answer, or a new row. */
  datatype Plan = Fail | Answer(answer: bool) | Write(row: Row)

  function PlanFor(op: Op, r: Row): Plan {
    match op
    case Take(owner) =>
      if r.owner == Some(owner) then Answer(true)
      else Write(r.(epoch := r.epoch + 1, owner := Some(owner)))
    case CommitSpawn(claim, spawn) =>
      if !ClaimMatches(claim, r) then Fail
      else if r.spawn.Some? || r.worker.Some? then Answer(false)
      else Write(r.(spawn := Some(spawn), worker := None))
    case ClearSpawn(claim) =>
      if !ClaimMatches(claim, r) then Answer(false)
      else if r.spawn.None? then Answer(true)
      else Write(r.(spawn := None))
    case Publish(claim, spawnToken, worker) =>
      if !ClaimMatches(claim, r) then Answer(false)
      else if r.spawn.None? || r.spawn.value.token != spawnToken then Answer(false)
      else if r.worker.Some? then Answer(false)
      else if worker.token != spawnToken then Fail
      else Write(r.(spawn := None, worker := Some(worker)))
    case ClearWorker(claim, token) =>
      if !ClaimMatches(claim, r) then Answer(false)
      else if r.worker.None? then Answer(true)
      else if r.worker.value.token != token then Answer(false)
      else Write(r.(worker := None))
    case Migrate(e) =>
      match MigrationSections(r, e)
      case Refused => Fail
      case Ok(sections) => Write(r.(spawn := sections.0, worker := sections.1))
  }

  function Carry(c: Codec, plan: Plan): Decision {
    match plan
    case Fail => Raised
    case Answer(b) => Settled(b)
    case Write(row) => SwapTo(c, row)
  }

  /** The startup-boundary migration: evidence first, then the row, version 2 before version 1. */
  function DecideMigrate(c: Codec, server: string, stored: Option<string>, e: Evidence): Decision {
    if e.workerAmbiguous || e.spawnAmbiguous || (e.liveWorker.Some? && e.spawn.Some?) then Raised
    else if server == "" || stored.None? then Raised
    else if ParseRow(c, stored.value, server).Ok? then Settled(true)
    else match ParseLegacyRow(c, stored.value, server)
      case Refused => Raised
      case Ok(legacy) => Carry(c, PlanFor(Migrate(e), legacy))
  }

  /** What one operation does with the text it read. The clearing operations absorb an
      unreadable row into a negative answer; the others raise. */
  function Decide(c: Codec, server: string, stored: Option<string>, op: Op): Decision {
    if op.Migrate? then DecideMigrate(c, server, stored, op.evidence) else
    match Observe(c, server, stored)
    case Ok(Some(r)) => Carry(c, PlanFor(op, r))
    case _ => if op.ClearSpawn? || op.ClearWorker? then Settled(false) else Raised
  }

  /** The payload a bootstrap inserts. */
  function NeutralRow(server: string): Row { Row(server, 0, 0, None, None, None) }

  /** A fresh read confirms a claim only when it names the claim's epoch and exact holder. */
  predicate Confirms(c: Codec, server: string, stored: Option<string>, claim: Claim) {
    var o := Observe(c, server, stored);
    o.Ok? && o.value.Some? && ClaimMatches(claim, o.value.value)
  }

  /** The row a text stands for, in either schema version. */
  function View(c: Codec, server: string, text: string): Option<Row> {
    if ParseRow(c, text, server).Ok? then Some(ParseRow(c, text, server).value)
    else if ParseLegacyRow(c, text, server).Ok? then Some(ParseLegacyRow(c, text, server).value)
    else None
  }

  /** A migration keeps epoch, generation and owner, and every identity the row or the
      evidence names; it invents none. */
  ghost predicate Migrated(e: Evidence, r: Row, r': Row) {
    && r'.server == r.server && r'.epoch == r.epoch && r'.generation == r.generation
    && r'.owner == r.owner
    && (r.spawn.Some? ==> r'.spawn == r.spawn) && (e.spawn.Some? ==> r'.spawn == e.spawn)
    && (r.worker.Some? ==> r'.worker == r.worker)
    && (e.liveWorker.Some? ==> r'.worker == e.liveWorker)
    && (r'.spawn == r.spawn || r'.spawn == e.spawn)
    && (r'.worker == r.worker || r'.worker == e.liveWorker)
  }

  /** The guarded transition an operation stands for, on rows instead of texts. */
  ghost predicate Effect(op: Op, r: Row, r': Row) {
    match op
    case Take(o) => r.owner != Some(o) && r' == r.(epoch := r.epoch + 1, owner := Some(o))
    case CommitSpawn(cl, s) =>
      ClaimMatches(cl, r) && r.spawn.None? && r.worker.None? && r' == r.(spawn := Some(s))
    case ClearSpawn(cl) => ClaimMatches(cl, r) && r.spawn.Some? && r' == r.(spawn := None)
    case Publish(cl, t, w) =>
      && ClaimMatches(cl, r) && r.spawn.Some? && r.spawn.value.token == t && w.token == t
      && r.worker.None? && r' == r.(spawn := None, worker := Some(w))
    case ClearWorker(cl, t) =>
      ClaimMatches(cl, r) && r.worker.Some? && r.worker.value.token == t && r' == r.(worker := None)
    case Migrate(e) => Migrated(e, r, r')
  }

  lemma PlanEffect(op: Op, r: Row)
    requires Exclusive(r) && PlanFor(op, r).Write?
    requires op.Migrate? ==> !(op.evidence.spawn.Some? && op.evidence.liveWorker.Some?)
    ensures Effect(op, r, PlanFor(op, r).row)
    ensures Exclusive(PlanFor(op, r).row) && PlanFor(op, r).row.server == r.server
  {}

  /** Every swap decided from a text takes the row that text stands for to the row the
      candidate stands for along the operation's transition. The candidate always reads back,
      as a valid version-2 row without both sections. */
  lemma SwapEffect(c: Codec, server: string, before: string, op: Op)
    requires Faithful(c) && Decide(c, server, Some(before), op).Swap?
    ensures server != ""
    ensures var after := Decide(c, server, Some(before), op).candidate;
            && View(c, server, before).Some? && ParseRow(c, after, server).Ok?
            && ValidSections(ParseRow(c, after, server).value) && Exclusive(ParseRow(c, after, server).value)
            && Effect(op, View(c, server, before).value, ParseRow(c, after, server).value)
    ensures op.Migrate? <==> ParseRow(c, before, server).Refused?
  {
    ParsedRowIsValid(c, before, server);
    var r := View(c, server, before).value;
    PlanEffect(op, r);
    RowRoundTrip(c, PlanFor(op, r).row);
  }

  /** A migration that already happened is recognised: repeating it writes nothing, whatever
      evidence it is given, and any normal operation still refuses a version-1 row. */
  lemma MigrationSettles(c: Codec, server: string, stored: string, e: Evidence, again: Evidence)
    requires Faithful(c) && DecideMigrate(c, server, Some(stored), e).Swap?
    ensures var after := DecideMigrate(c, server, Some(stored), e).candidate;
            !DecideMigrate(c, server, Some(after), again).Swap?
    ensures forall op: Op :: !op.Migrate? ==> !Decide(c, server, Some(stored), op).Swap?
  {
    SwapEffect(c, server, stored, Migrate(e));
  }

  /** Refusal is exact: a version-1 row is left alone just when the evidence is ambiguous or
      names two identities, disagrees with the row, would leave both sections set, or the
      new text cannot be written. */
  lemma MigrationRefusal(c: Codec, server: string, stored: string, e: Evidence)
    requires server != "" && ParseLegacyRow(c, stored, server).Ok?
    ensures var r := ParseLegacyRow(c, stored, server).value;
            var spawn := if r.spawn.Some? then r.spawn else e.spawn;
            var worker := if r.worker.Some? then r.worker else e.liveWorker;
            !DecideMigrate(c, server, Some(stored), e).Swap? <==>
            || e.workerAmbiguous || e.spawnAmbiguous
            || (r.spawn.Some? && e.spawn.Some? && r.spawn != e.spawn)
            || (r.worker.Some? && e.liveWorker.Some? && r.worker != e.liveWorker)
            || (spawn.Some? && worker.Some?)
            || (e.spawn.Some? && e.liveWorker.Some?)
            || CanonicalText(c, r.(spawn := spawn, worker := worker)).Refused?
  {
    ParsedRowIsValid(c, stored, server);
  }
}
