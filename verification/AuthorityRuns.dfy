/** Whole runs of the authority row: the read-decide-swap machine instantiated with the real
    operations, so that every interleaving enjoys fencing and spawn exclusion.
    Models src/lubko/lifecycle_authority.py. */
module AuthorityRuns {
  import opened Common
  import opened AuthorityRow
  import opened AuthorityOps
  import opened CasMachine
  import opened AuthorityHistory
  import opened AuthorityAnswers

  function Candidate(c: Codec, server: string, text: string, op: Op): Option<string> {
    match Decide(c, server, Some(text), op)
    case Swap(candidate) => Some(candidate)
    case _ => None
  }

  /** What an operation answers that writes nothing. */
  function Answered(c: Codec, server: string, stored: Option<string>, op: Op): Result<bool> {
    match Decide(c, server, stored, op)
    case Settled(answer) => Ok(answer)
    case _ => Refused
  }

  function NeutralText(c: Codec, server: string): Option<string> {
    match CanonicalText(c, NeutralRow(server))
    case Ok(text) => Some(text)
    case Refused => None
  }

  function Site(c: Codec, server: string): Machine<Op> {
    Machine((text, op) => Candidate(c, server, text, op), (stored, op) => Answered(c, server, stored, op),
      NeutralText(c, server))
  }

  function RowOf(c: Codec, server: string, text: string): Row {
    match View(c, server, text) case Some(r) => r case None => NeutralRow(server)
  }

  /** The row before each committed transition, and the row after the last. */
  function Rows(c: Codec, server: string, h: seq<Event<Op>>): seq<Row> {
    if h == [] then [] else
      seq(|h| + 1, i requires 0 <= i <= |h| =>
        RowOf(c, server, if i < |h| then h[i].before else h[|h| - 1].after))
  }

  lemma CommittedStep(c: Codec, server: string, before: string, op: Op, after: string)
    requires Faithful(c) && Candidate(c, server, before, op) == Some(after)
    ensures Effect(op, RowOf(c, server, before), RowOf(c, server, after))
    ensures Exclusive(RowOf(c, server, before)) && Exclusive(RowOf(c, server, after))
    ensures ParseRow(c, after, server).Ok? && server != ""
    ensures op.Migrate? <==> ParseRow(c, before, server).Refused?
  {
    SwapEffect(c, server, before, op);
    ParsedRowIsValid(c, before, server);
  }

  lemma ChainStep(c: Codec, server: string, h: seq<Event<Op>>, i: nat)
    requires Faithful(c) && Chain(Site(c, server), h) && i < |h|
    ensures var rows := Rows(c, server, h);
            Effect(h[i].op, rows[i], rows[i + 1]) && Exclusive(rows[i]) && Exclusive(rows[i + 1])
  {
    assert Candidate(c, server, h[i].before, h[i].op) == Some(h[i].after);
    assert i + 1 < |h| ==> h[i + 1].before == h[i].after;
    CommittedStep(c, server, h[i].before, h[i].op, h[i].after);
  }

  /** The committed transitions of any interleaved run, from any stored text, form a row run:
      every fencing and exclusion law of histories holds of it. */
  lemma RunsAreRowRuns(c: Codec, server: string, stored: Option<string>, actions: seq<Action<Op>>)
    requires Faithful(c)
    ensures var h := Exec(Site(c, server), Start(stored), actions).history;
            h != [] ==> RowRun(Rows(c, server, h), Ops(h))
  {
    var h := Exec(Site(c, server), Start(stored), actions).history;
    RunKeepsInv(Site(c, server), stored, actions);
    if h != [] {
      var rows := Rows(c, server, h);
      forall i | 0 <= i < |h|
        ensures Effect(h[i].op, rows[i], rows[i + 1])
      {
        ChainStep(c, server, h, i);
      }
      forall i | 0 <= i <= |h|
        ensures Exclusive(rows[i])
      {
        ChainStep(c, server, h, if i < |h| then i else i - 1);
      }
    }
  }

  /** The row's epoch has passed the claim. */
  ghost predicate Past(c: Codec, server: string, stored: Option<string>, claim: Claim) {
    stored.Some? && View(c, server, stored.value).Some? && RowOf(c, server, stored.value).epoch > claim.epoch
  }

  /** One superseded swap: when the row's epoch has passed a claim, a pending operation under
      that claim changes nothing and the claim no longer confirms. */
  lemma StaleSwapFails(c: Codec, server: string, w: World<Op>, caller: nat, heard: bool, claim: Claim)
    requires Faithful(c) && Inv(Site(c, server), w) && Past(c, server, w.stored, claim)
    ensures !Confirms(c, server, w.stored, claim)
    ensures caller in w.pending && Claimed(w.pending[caller].op) && w.pending[caller].op.claim == claim ==>
            Apply(Site(c, server), w, Action.Swap(caller, heard)).stored == w.stored
  {
    if caller in w.pending && Claimed(w.pending[caller].op) && w.pending[caller].op.claim == claim {
      var p := w.pending[caller];
      assert Candidate(c, server, p.expected, p.op) == Some(p.candidate);
      CommittedStep(c, server, p.expected, p.op, p.candidate);
    }
  }

  lemma StepKeepsEpoch(c: Codec, server: string, w: World<Op>, a: Action<Op>)
    requires Faithful(c) && Inv(Site(c, server), w) && w.stored.Some? && View(c, server, w.stored.value).Some?
    ensures var w' := Apply(Site(c, server), w, a);
            && w'.stored.Some? && View(c, server, w'.stored.value).Some?
            && RowOf(c, server, w.stored.value).epoch <= RowOf(c, server, w'.stored.value).epoch
  {
    if a.Swap? && a.caller in w.pending && w.stored == Some(w.pending[a.caller].expected) {
      var p := w.pending[a.caller];
      assert Candidate(c, server, p.expected, p.op) == Some(p.candidate);
      CommittedStep(c, server, p.expected, p.op, p.candidate);
    }
  }

  lemma StepKeepsPast(c: Codec, server: string, w: World<Op>, a: Action<Op>, claim: Claim)
    requires Faithful(c) && Inv(Site(c, server), w) && Past(c, server, w.stored, claim)
    ensures Past(c, server, Apply(Site(c, server), w, a).stored, claim)
  {
    StepKeepsEpoch(c, server, w, a);
  }

  lemma {:induction false} StaysPast(
    c: Codec, server: string, stored: Option<string>, first: seq<Action<Op>>, later: seq<Action<Op>>, claim: Claim)
    requires Faithful(c) && Past(c, server, Exec(Site(c, server), Start(stored), first).stored, claim)
    ensures Past(c, server, Exec(Site(c, server), Start(stored), first + later).stored, claim)
    decreases |later|
  {
    if later == [] {
      assert first + later == first;
    } else {
      var n := |later| - 1;
      StaysPast(c, server, stored, first, later[..n], claim);
      RunKeepsInv(Site(c, server), stored, first + later[..n]);
      StepKeepsPast(c, server, Exec(Site(c, server), Start(stored), first + later[..n]), later[n], claim);
      ExecLast(Site(c, server), Start(stored), first, later);
    }
  }

  /** Superseded for good: in every run that reaches an epoch past a claim, and however it goes
      on, the row stays past it, the claim never confirms, and no outstanding swap under it -
      even one read before the takeover - changes the row. */
  lemma SupersededForever(
    c: Codec, server: string, stored: Option<string>,
    first: seq<Action<Op>>, later: seq<Action<Op>>, caller: nat, heard: bool, claim: Claim)
    requires Faithful(c) && Past(c, server, Exec(Site(c, server), Start(stored), first).stored, claim)
    ensures var w := Exec(Site(c, server), Start(stored), first + later);
            && Past(c, server, w.stored, claim) && !Confirms(c, server, w.stored, claim)
            && (caller in w.pending && Claimed(w.pending[caller].op) && w.pending[caller].op.claim == claim ==>
                Apply(Site(c, server), w, Action.Swap(caller, heard)).stored == w.stored)
  {
    StaysPast(c, server, stored, first, later, claim);
    RunKeepsInv(Site(c, server), stored, first + later);
    StaleSwapFails(c, server, Exec(Site(c, server), Start(stored), first + later), caller, heard, claim);
  }

  /** A run from no row at all starts its history from the bootstrapped neutral row. */
  lemma {:induction false} HistoryStartsNeutral(c: Codec, server: string, actions: seq<Action<Op>>)
    requires Faithful(c)
    ensures var w := Exec(Site(c, server), Start(None), actions);
            && (w.history == [] ==> w.stored.None? || w.stored == NeutralText(c, server))
            && (w.history != [] ==> Some(w.history[0].before) == NeutralText(c, server))
  {
    if actions != [] {
      HistoryStartsNeutral(c, server, actions[..|actions| - 1]);
    }
  }

  /** Everything a run from no row at all stores is a readable version-2 row; no migration
      writes; and the tokens in the row were committed as obligations earlier in that run. */
  lemma RunsFromBootstrap(c: Codec, server: string, actions: seq<Action<Op>>)
    requires Faithful(c)
    ensures var w := Exec(Site(c, server), Start(None), actions);
            var h, ops, rows := w.history, Ops(w.history), Rows(c, server, w.history);
            && (w.stored.Some? ==> ParseRow(c, w.stored.value, server).Ok?)
            && (forall i :: 0 <= i < |ops| ==> !ops[i].Migrate?)
            && (h != [] ==> w.stored.Some? && rows[|h|] == RowOf(c, server, w.stored.value))
            && (h != [] && rows[|h|].worker.Some? ==>
                exists i, p :: 0 <= i < p < |h| && ops[i].CommitSpawn? && ops[p].Publish?
                  && ops[i].spawn.token == rows[|h|].worker.value.token == ops[p].worker.token)
  {
    var w := Exec(Site(c, server), Start(None), actions);
    var h, ops, rows := w.history, Ops(w.history), Rows(c, server, w.history);
    RunKeepsInv(Site(c, server), None, actions);
    HistoryStartsNeutral(c, server, actions);
    RunsAreRowRuns(c, server, None, actions);
    RowRoundTrip(c, NeutralRow(server));
    forall i | 0 <= i < |h|
      ensures ParseRow(c, h[i].after, server).Ok? && !ops[i].Migrate?
    {
      assert Candidate(c, server, h[i].before, h[i].op) == Some(h[i].after);
      CommittedStep(c, server, h[i].before, h[i].op, h[i].after);
      if i > 0 {
        assert Candidate(c, server, h[i - 1].before, h[i - 1].op) == Some(h[i - 1].after);
        CommittedStep(c, server, h[i - 1].before, h[i - 1].op, h[i - 1].after);
      }
    }
    if h != [] {
      assert rows[0] == NeutralRow(server);
      TokensWereCommitted(rows, ops, |h|);
    }
  }

  /** In every interleaved run, every call that was not outrun wrote, answered and refused what the rows
      say, at the instant it took effect; one that heard nothing committed. */
  lemma RepliesObey(c: Codec, server: string, stored: Option<string>, actions: seq<Action<Op>>, i: nat)
    requires Faithful(c) && i < |Exec(Site(c, server), Start(stored), actions).replies|
    ensures var m := Site(c, server);
            var reply := Exec(m, Start(stored), actions).replies[i];
            var all := Doings(m, stored, Linearize(m, Start(stored), actions));
            && i < |all| && all[i].op == reply.op
            && Obeys(c, server, reply.op, all[i].before, all[i].before, all[i].after,
                     if reply.answer.Some? then reply.answer.value else Ok(true))
  {
    var m := Site(c, server);
    var steps := Linearize(m, Start(stored), actions);
    InterleavingRefinesAtomic(m, stored, actions);
    AnswersDecided(m, stored, steps, i);
    var d := Doings(m, stored, steps)[i];
    DecisionObeys(c, server, d.op, d.before, d.before);
  }
}
