/** What the authority operations answer, said on rows: for every text read and whatever the others do
    before the guarded update. Models src/lubko/lifecycle_authority.py. */
module AuthorityAnswers {
  import opened Common
  import opened AuthorityRow
  import opened AuthorityOps

  /** The row an operation works on: version 2, or version 1 for the migration; none if there is no
      row or it cannot be read. */
  function Found(c: Codec, server: string, stored: Option<string>, op: Op): Option<Row> {
    if server == "" || stored.None? then None
    else if op.Migrate? then
      (if ParseRow(c, stored.value, server).Ok? then None else View(c, server, stored.value))
    else
      match ParseRow(c, stored.value, server) case Ok(r) => Some(r) case Refused => None
  }

  /** The evidence of a migration names at most one identity, and that for certain. */
  predicate Certain(e: Evidence) {
    !e.workerAmbiguous && !e.spawnAmbiguous && !(e.liveWorker.Some? && e.spawn.Some?)
  }

  /** Some row along the operation's guarded transition can be written. */
  ghost predicate Open(c: Codec, op: Op, r: Row) {
    exists r' :: Effect(op, r, r') && Exclusive(r') && CanonicalText(c, r').Ok?
  }

  /** The transition is allowed, but the row it leads to cannot be written. */
  ghost predicate Overfull(c: Codec, op: Op, r: Row) {
    (exists r' :: Effect(op, r, r') && Exclusive(r')) && !Open(c, op, r)
  }

  /** A call that read `was`, whose update found `meanwhile` and left `now`, writes exactly where its
      transition is open from the row read and nobody intervened; then along that transition. */
  ghost predicate Writes(
    c: Codec, server: string, op: Op, was: Option<string>, meanwhile: Option<string>, now: Option<string>)
  {
    var read := Found(c, server, was, op);
    && (now != meanwhile <==>
          meanwhile == was && read.Some? && Open(c, op, read.value) && (op.Migrate? ==> Certain(op.evidence)))
    && (now != meanwhile ==>
          && now.Some? && ParseRow(c, now.value, server).Ok?
          && Effect(op, read.value, ParseRow(c, now.value, server).value)
          && Exclusive(ParseRow(c, now.value, server).value))
  }

  /** A call is answered true: a commit and a publication exactly if this call put the spawn or worker in
      the row; the clearing operations exactly if the claim held in the row read and what is to be
      cleared is not, or no longer, in it; a take exactly if it wrote or was the owner already; a
      migration exactly if it wrote or the row already was of version 2. */
  ghost predicate Granted(c: Codec, server: string, op: Op, was: Option<string>, wrote: bool) {
    var read := Found(c, server, was, op);
    match op
    case Take(owner) => wrote || (read.Some? && read.value.owner == Some(owner))
    case CommitSpawn(_, _) => wrote
    case ClearSpawn(claim) => read.Some? && ClaimMatches(claim, read.value) && (wrote || read.value.spawn.None?)
    case Publish(_, _, _) => wrote
    case ClearWorker(claim, _) => read.Some? && ClaimMatches(claim, read.value) && (wrote || read.value.worker.None?)
    case Migrate(e) => wrote || (Current(c, server, was) && Certain(e))
  }

  /** The row is of version 2 already. */
  predicate Current(c: Codec, server: string, was: Option<string>) {
    server != "" && was.Some? && ParseRow(c, was.value, server).Ok?
  }

  /** A call raises: without a readable row, unless it clears; a commit that lost its claim; a publication
      of another worker than the obligated one; a migration whose evidence is uncertain or whose
      transition is not open; and whatever leads to a row that cannot be written. */
  ghost predicate Raises(c: Codec, server: string, op: Op, was: Option<string>) {
    var read := Found(c, server, was, op);
    match op
    case Take(_) => read.None? || Overfull(c, op, read.value)
    case CommitSpawn(claim, _) =>
      read.None? || !ClaimMatches(claim, read.value) || Overfull(c, op, read.value)
    case ClearSpawn(_) => read.Some? && Overfull(c, op, read.value)
    case Publish(claim, spawnToken, worker) =>
      || read.None? || Overfull(c, op, read.value)
      || (ClaimMatches(claim, read.value) && read.value.spawn.Some?
          && read.value.spawn.value.token == spawnToken && worker.token != spawnToken)
    case ClearWorker(_, _) => read.Some? && Overfull(c, op, read.value)
    case Migrate(e) =>
      !Certain(e) || (!Current(c, server, was) && (read.None? || !Open(c, op, read.value)))
  }

  ghost predicate Obeys(
    c: Codec, server: string, op: Op, was: Option<string>, meanwhile: Option<string>, now: Option<string>,
    answer: Result<bool>)
  {
    && Writes(c, server, op, was, meanwhile, now)
    && (answer == Ok(true) <==> Granted(c, server, op, was, now != meanwhile))
    && (answer.Refused? <==> Raises(c, server, op, was))
  }

  /** What a call leaves in the row. */
  function Left(d: Decision, was: Option<string>, meanwhile: Option<string>): Option<string> {
    if d.Swap? && meanwhile == was then Some(d.candidate) else meanwhile
  }

  /** What a call answers: a raised error, an answer known from the read, or whether it won the swap. */
  function Told(d: Decision, was: Option<string>, meanwhile: Option<string>): Result<bool> {
    match d
    case Raised => Refused
    case Settled(b) => Ok(b)
    case Swap(_) => Ok(meanwhile == was)
  }

  /** The operation writes the one row its transition leads to. */
  lemma EffectPlanned(op: Op, r: Row, r': Row)
    requires Exclusive(r) && Exclusive(r') && Effect(op, r, r') && (op.Migrate? ==> Certain(op.evidence))
    ensures PlanFor(op, r) == Write(r')
  {}

  /** It writes exactly where the transition is open. */
  lemma PlanOpens(c: Codec, op: Op, r: Row)
    requires Exclusive(r) && (op.Migrate? ==> Certain(op.evidence))
    ensures PlanFor(op, r).Write? && SwapTo(c, PlanFor(op, r).row).Swap? <==> Open(c, op, r)
    ensures PlanFor(op, r).Write? && SwapTo(c, PlanFor(op, r).row).Raised? <==> Overfull(c, op, r)
  {
    if PlanFor(op, r).Write? { PlanEffect(op, r); }
    forall r' | Effect(op, r, r') && Exclusive(r') ensures PlanFor(op, r) == Write(r') {
      EffectPlanned(op, r, r');
    }
  }

  /** Another row stands in another text. */
  lemma WrittenDiffers(c: Codec, server: string, before: string, op: Op)
    requires Faithful(c) && Decide(c, server, Some(before), op).Swap?
    ensures Decide(c, server, Some(before), op).candidate != before
  {
    SwapEffect(c, server, before, op);
  }

  lemma FoundIsExclusive(c: Codec, server: string, stored: Option<string>, op: Op)
    requires Found(c, server, stored, op).Some?
    ensures Exclusive(Found(c, server, stored, op).value)
  {
    ParsedRowIsValid(c, stored.value, server);
  }

  /** Decisions are made from the row found. */
  lemma DecideFound(c: Codec, server: string, op: Op, was: Option<string>)
    ensures var read, d := Found(c, server, was, op), Decide(c, server, was, op);
            if op.Migrate? && !Certain(op.evidence) then d == Raised
            else if read.Some? then Exclusive(read.value) && d == Carry(c, PlanFor(op, read.value))
            else if op.Migrate? && Current(c, server, was) then d == Settled(true)
            else d == if op.ClearSpawn? || op.ClearWorker? then Settled(false) else Raised
  {
    if Found(c, server, was, op).Some? { FoundIsExclusive(c, server, was, op); }
  }

  lemma DecisionWrites(c: Codec, server: string, op: Op, was: Option<string>, meanwhile: Option<string>)
    requires Faithful(c)
    ensures var d := Decide(c, server, was, op);
            Writes(c, server, op, was, meanwhile, Left(d, was, meanwhile))
            && (Left(d, was, meanwhile) != meanwhile <==> d.Swap? && meanwhile == was)
  {
    var d := Decide(c, server, was, op);
    DecideFound(c, server, op, was);
    if d.Swap? {
      WrittenDiffers(c, server, was.value, op);
      SwapEffect(c, server, was.value, op);
    }
    var read := Found(c, server, was, op);
    if read.Some? && (op.Migrate? ==> Certain(op.evidence)) { PlanOpens(c, op, read.value); }
  }

  lemma DecisionAnswers(c: Codec, server: string, op: Op, was: Option<string>, meanwhile: Option<string>)
    ensures var d := Decide(c, server, was, op);
            && (Told(d, was, meanwhile) == Ok(true) <==> Granted(c, server, op, was, d.Swap? && meanwhile == was))
            && (d.Raised? <==> Raises(c, server, op, was))
  {
    DecideFound(c, server, op, was);
    var read := Found(c, server, was, op);
    if read.Some? && (op.Migrate? ==> Certain(op.evidence)) { PlanOpens(c, op, read.value); }
  }

  /** Every decision, carried through with whatever the others do meanwhile, is what the rows say. */
  lemma DecisionObeys(c: Codec, server: string, op: Op, was: Option<string>, meanwhile: Option<string>)
    requires Faithful(c)
    ensures var d := Decide(c, server, was, op);
            Obeys(c, server, op, was, meanwhile, Left(d, was, meanwhile), Told(d, was, meanwhile))
  {
    DecisionWrites(c, server, op, was, meanwhile);
    DecisionAnswers(c, server, op, was, meanwhile);
  }
}
