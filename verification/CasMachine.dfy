/** Read-decide-swap on one stored text, for any operations whose decision depends only on the
    text they read. Any number of calls by any number of incarnations run interleaved: each is
    a read step and a later swap step, a caller may crash between the two, and the connection may be
    lost after the swap, so that its caller learns nothing of it.
    Models the shape shared by every mutation in src/lubko/lifecycle_authority.py. */
module CasMachine {
  import opened Common

  /** `judge` gives the candidate an operation would swap in for the text it read, if any, and
      `answer` what it answers when it writes nothing; `neutral` is the text a bootstrap inserts
      when there is no row, if it can be written. */
  datatype Machine<!Op> = Machine(
    judge: (string, Op) -> Option<string>, answer: (Option<string>, Op) -> Result<bool>, neutral: Option<string>)

  /** A call that has read and decided but not yet swapped; `since` counts the transitions
      committed when it read. */
  datatype Pending<Op> = Pending(op: Op, expected: string, candidate: string, since: nat)

  /** A committed transition. */
  datatype Event<Op> = Event(op: Op, before: string, after: string)

  /** What a call that was not outrun answered; a commit answers true. Nothing if the caller was told
      that the database is unavailable. */
  datatype Reply<Op> = Reply(op: Op, answer: Option<Result<bool>>)

  /** A call outrun between its read and its swap, and the commit counts at both. */
  datatype Outrun<Op> = Outrun(op: Op, since: nat, at: nat)

  datatype World<Op> = World(
    stored: Option<string>, pending: map<nat, Pending<Op>>, history: seq<Event<Op>>,
    replies: seq<Reply<Op>>, outrun: seq<Outrun<Op>>)

  /** `caller` names one call of one incarnation; `heard` says that the outcome of a swap reaches it. */
  datatype Action<Op> = Boot | Read(caller: nat, op: Op) | Swap(caller: nat, heard: bool) | Crash(caller: nat)

  function BootText<Op>(m: Machine<Op>, stored: Option<string>): Option<string> {
    if stored.Some? then stored else m.neutral
  }

  function Apply<Op>(m: Machine<Op>, w: World<Op>, a: Action<Op>): World<Op> {
    match a
    case Boot => w.(stored := BootText(m, w.stored))
    case Read(caller, op) =>
      if w.stored.Some? && m.judge(w.stored.value, op).Some?
      then w.(pending := w.pending[caller :=
                Pending(op, w.stored.value, m.judge(w.stored.value, op).value, |w.history|)])
      else w.(pending := w.pending - {caller}, replies := w.replies + [Reply(op, Some(m.answer(w.stored, op)))])
    case Swap(caller, heard) =>
      if caller !in w.pending then w else
        var p := w.pending[caller];
        if w.stored == Some(p.expected)
        then World(Some(p.candidate), w.pending - {caller},
                   w.history + [Event(p.op, p.expected, p.candidate)],
                   w.replies + [Reply(p.op, if heard then Some(Ok(true)) else None)], w.outrun)
        else if !heard then w.(pending := w.pending - {caller})
        else w.(pending := w.pending - {caller}, outrun := w.outrun + [Outrun(p.op, p.since, |w.history|)])
    case Crash(caller) => w.(pending := w.pending - {caller})
  }

  function Exec<Op>(m: Machine<Op>, w: World<Op>, actions: seq<Action<Op>>): World<Op> {
    if actions == [] then w
    else Apply(m, Exec(m, w, actions[..|actions| - 1]), actions[|actions| - 1])
  }

  lemma ExecLast<Op>(m: Machine<Op>, w: World<Op>, first: seq<Action<Op>>, later: seq<Action<Op>>)
    requires later != []
    ensures Exec(m, w, first + later) == Apply(m, Exec(m, w, first + later[..|later| - 1]), later[|later| - 1])
  {
    var all := first + later;
    assert all[..|all| - 1] == first + later[..|later| - 1];
  }

  function Start<Op>(stored: Option<string>): World<Op> { World(stored, map[], [], [], []) }

  /* ---- The simple machine: every operation reads and writes in one atomic step ---- */

  datatype AtomicStep<Op> = AtomicBoot | AtomicDo(op: Op)

  function AtomicApply<Op>(m: Machine<Op>, stored: Option<string>, s: AtomicStep<Op>): Option<string> {
    match s
    case AtomicBoot => BootText(m, stored)
    case AtomicDo(op) =>
      if stored.Some? && m.judge(stored.value, op).Some? then m.judge(stored.value, op) else stored
  }

  function AtomicExec<Op>(m: Machine<Op>, stored: Option<string>, steps: seq<AtomicStep<Op>>): Option<string> {
    if steps == [] then stored
    else AtomicApply(m, AtomicExec(m, stored, steps[..|steps| - 1]), steps[|steps| - 1])
  }

  /** The atomic steps whose operation writes, in order. */
  function Writes<Op>(m: Machine<Op>, stored: Option<string>, steps: seq<AtomicStep<Op>>): seq<Op> {
    if steps == [] then [] else
      var now := AtomicExec(m, stored, steps[..|steps| - 1]);
      var last := steps[|steps| - 1];
      Writes(m, stored, steps[..|steps| - 1]) +
      (if last.AtomicDo? && now.Some? && m.judge(now.value, last.op).Some? then [last.op] else [])
  }

  /** What the atomic step answers. */
  function AtomicAnswer<Op>(m: Machine<Op>, now: Option<string>, op: Op): Result<bool> {
    if now.Some? && m.judge(now.value, op).Some? then Ok(true) else m.answer(now, op)
  }

  /** What every atomic operation answers, in order. */
  function AtomicReplies<Op>(
    m: Machine<Op>, stored: Option<string>, steps: seq<AtomicStep<Op>>): seq<(Op, Result<bool>)>
  {
    if steps == [] then [] else
      var now := AtomicExec(m, stored, steps[..|steps| - 1]);
      var last := steps[|steps| - 1];
      AtomicReplies(m, stored, steps[..|steps| - 1]) +
      (if last.AtomicBoot? then []
       else [(last.op, AtomicAnswer(m, now, last.op))])
  }

  /** An operation at the instant it takes effect: the text before and after. */
  datatype Doing<Op> = Doing(op: Op, before: Option<string>, after: Option<string>)

  /** Every atomic operation with the texts around it, in order. */
  function Doings<Op>(m: Machine<Op>, stored: Option<string>, steps: seq<AtomicStep<Op>>): seq<Doing<Op>> {
    if steps == [] then [] else
      var now := AtomicExec(m, stored, steps[..|steps| - 1]);
      var last := steps[|steps| - 1];
      Doings(m, stored, steps[..|steps| - 1])
      + (if last.AtomicBoot? then [] else [Doing(last.op, now, AtomicApply(m, now, last))])
  }

  /** Every call answers what its atomic step answers, or has committed and nobody heard. */
  ghost predicate Heard<Op>(replies: seq<Reply<Op>>, atomic: seq<(Op, Result<bool>)>) {
    && |replies| == |atomic|
    && (forall i :: 0 <= i < |replies| ==>
          && replies[i].op == atomic[i].0
          && atomic[i].1 == (if replies[i].answer.Some? then replies[i].answer.value else Ok(true)))
  }

  function Ops<Op>(h: seq<Event<Op>>): seq<Op> { seq(|h|, i requires 0 <= i < |h| => h[i].op) }

  /** Where a step takes effect: each bootstrap, each read that answers at once, and each swap that
      commits. */
  function StepEffect<Op>(m: Machine<Op>, w: World<Op>, a: Action<Op>): seq<AtomicStep<Op>> {
    match a
    case Boot => [AtomicBoot]
    case Read(_, op) => if w.stored.Some? && m.judge(w.stored.value, op).Some? then [] else [AtomicDo(op)]
    case Swap(caller, _) =>
      if caller in w.pending && w.stored == Some(w.pending[caller].expected)
      then [AtomicDo(w.pending[caller].op)] else []
    case _ => []
  }

  function Linearize<Op>(m: Machine<Op>, w: World<Op>, actions: seq<Action<Op>>): seq<AtomicStep<Op>> {
    if actions == [] then [] else
      Linearize(m, w, actions[..|actions| - 1])
      + StepEffect(m, Exec(m, w, actions[..|actions| - 1]), actions[|actions| - 1])
  }

  /* ---- What every step keeps ---- */

  /** A pending call's candidate is what its operation decides from the text it expects, and
      nothing else: the rest of the run does not matter to it. */
  ghost predicate PendingSound<Op>(m: Machine<Op>, w: World<Op>) {
    forall caller :: caller in w.pending ==>
      m.judge(w.pending[caller].expected, w.pending[caller].op) == Some(w.pending[caller].candidate)
  }

  /** Unless something has been committed since it read, a pending call still finds its text. */
  ghost predicate PendingCurrent<Op>(w: World<Op>) {
    forall caller :: caller in w.pending ==>
      && w.pending[caller].since <= |w.history|
      && (w.pending[caller].since == |w.history| ==> w.stored == Some(w.pending[caller].expected))
  }

  /** A call is outrun only by another call's commit. */
  ghost predicate OutrunSound<Op>(w: World<Op>) {
    forall i :: 0 <= i < |w.outrun| ==> w.outrun[i].since < w.outrun[i].at <= |w.history|
  }

  /** Committed transitions are decided ones, each starting from the text the last one left. */
  ghost predicate Chain<Op>(m: Machine<Op>, h: seq<Event<Op>>) {
    && (forall i :: 0 <= i < |h| ==> m.judge(h[i].before, h[i].op) == Some(h[i].after))
    && (forall i :: 0 < i < |h| ==> h[i].before == h[i - 1].after)
  }

  ghost predicate Inv<Op>(m: Machine<Op>, w: World<Op>) {
    && PendingSound(m, w) && PendingCurrent(w) && OutrunSound(w)
    && Chain(m, w.history)
    && (w.history != [] ==> w.stored == Some(w.history[|w.history| - 1].after))
    && (w.stored.None? ==> w.pending == map[])
  }

  lemma StepKeepsInv<Op>(m: Machine<Op>, w: World<Op>, a: Action<Op>)
    requires Inv(m, w)
    ensures Inv(m, Apply(m, w, a))
  {}

  /** Every run, from any stored text or none, commits a chain of decided transitions that
      ends in the stored text. */
  lemma {:induction false} RunKeepsInv<Op>(m: Machine<Op>, stored: Option<string>, actions: seq<Action<Op>>)
    ensures Inv(m, Exec(m, Start(stored), actions))
  {
    if actions != [] {
      RunKeepsInv(m, stored, actions[..|actions| - 1]);
      StepKeepsInv(m, Exec(m, Start(stored), actions[..|actions| - 1]), actions[|actions| - 1]);
    }
  }

  /** One step of the interleaving is what the atomic machine does where it takes effect. */
  lemma StepRefines<Op>(m: Machine<Op>, w: World<Op>, a: Action<Op>, stored: Option<string>, steps: seq<AtomicStep<Op>>)
    requires Inv(m, w) && AtomicExec(m, stored, steps) == w.stored && Writes(m, stored, steps) == Ops(w.history)
    ensures var more, w' := steps + StepEffect(m, w, a), Apply(m, w, a);
            AtomicExec(m, stored, more) == w'.stored && Writes(m, stored, more) == Ops(w'.history)
  {
    var more := steps + StepEffect(m, w, a);
    if StepEffect(m, w, a) == [] {
      assert more == steps;
    } else {
      assert more[..|more| - 1] == steps;
    }
  }

  /** Each answer is decided from the text before, and each effect is the operation's own. */
  lemma {:induction false} AnswersDecided<Op>(
    m: Machine<Op>, stored: Option<string>, steps: seq<AtomicStep<Op>>, i: nat)
    requires i < |AtomicReplies(m, stored, steps)|
    ensures var all := Doings(m, stored, steps);
            && |all| == |AtomicReplies(m, stored, steps)|
            && AtomicReplies(m, stored, steps)[i] == (all[i].op, AtomicAnswer(m, all[i].before, all[i].op))
            && all[i].after == AtomicApply(m, all[i].before, AtomicDo(all[i].op))
  {
    var fewer := steps[..|steps| - 1];
    SameLength(m, stored, fewer);
    if i < |AtomicReplies(m, stored, fewer)| {
      AnswersDecided(m, stored, fewer, i);
    }
  }

  lemma {:induction false} SameLength<Op>(m: Machine<Op>, stored: Option<string>, steps: seq<AtomicStep<Op>>)
    ensures |Doings(m, stored, steps)| == |AtomicReplies(m, stored, steps)|
  {
    if steps != [] { SameLength(m, stored, steps[..|steps| - 1]); }
  }

  lemma AnswersOn<Op>(m: Machine<Op>, stored: Option<string>, steps: seq<AtomicStep<Op>>, s: AtomicStep<Op>)
    ensures AtomicReplies(m, stored, steps + [s]) ==
            AtomicReplies(m, stored, steps)
            + if s.AtomicBoot? then [] else [(s.op, AtomicAnswer(m, AtomicExec(m, stored, steps), s.op))]
  {
    var more := steps + [s];
    assert more[..|more| - 1] == steps;
  }

  lemma HeardOn<Op>(replies: seq<Reply<Op>>, atomic: seq<(Op, Result<bool>)>, r: Reply<Op>, x: (Op, Result<bool>))
    requires Heard(replies, atomic) && r.op == x.0
    requires x.1 == if r.answer.Some? then r.answer.value else Ok(true)
    ensures Heard(replies + [r], atomic + [x])
  {}

  /** What a step adds to the replies: one for each operation that takes effect. */
  lemma StepReplies<Op>(m: Machine<Op>, w: World<Op>, a: Action<Op>)
    requires Inv(m, w)
    ensures var effect, w' := StepEffect(m, w, a), Apply(m, w, a);
            if effect == [] || effect == [AtomicBoot] then w'.replies == w.replies
            else
              && |effect| == 1 && effect[0].AtomicDo? && |w'.replies| == |w.replies| + 1
              && w'.replies == w.replies + [w'.replies[|w.replies|]]
              && var r, answer := w'.replies[|w.replies|], AtomicAnswer(m, w.stored, effect[0].op);
                 r.op == effect[0].op && answer == if r.answer.Some? then r.answer.value else Ok(true)
  {}

  lemma StepAnswers<Op>(m: Machine<Op>, w: World<Op>, a: Action<Op>, stored: Option<string>, steps: seq<AtomicStep<Op>>)
    requires Inv(m, w) && AtomicExec(m, stored, steps) == w.stored && Heard(w.replies, AtomicReplies(m, stored, steps))
    ensures Heard(Apply(m, w, a).replies, AtomicReplies(m, stored, steps + StepEffect(m, w, a)))
  {
    var effect, w' := StepEffect(m, w, a), Apply(m, w, a);
    StepReplies(m, w, a);
    if effect == [] {
      assert steps + effect == steps;
    } else if effect == [AtomicBoot] {
      AnswersOn(m, stored, steps, AtomicBoot);
      assert AtomicReplies(m, stored, steps) + [] == AtomicReplies(m, stored, steps);
    } else {
      var op := effect[0].op;
      assert effect == [AtomicDo(op)];
      AnswersOn(m, stored, steps, AtomicDo(op));
      HeardOn(w.replies, AtomicReplies(m, stored, steps), w'.replies[|w.replies|], (op, AtomicAnswer(m, w.stored, op)));
    }
  }

  /** Refinement: every interleaving of read and swap steps stores exactly what the atomic
      machine stores when it runs the operations in the order they take effect; the ones that
      write are the committed ones; and every call answers what its atomic step answers or, having
      committed, hears nothing, except one that another call's commit outran between its read and
      its swap. A text that recurs in between does no harm. */
  lemma {:induction false} InterleavingRefinesAtomic<Op>(
    m: Machine<Op>, stored: Option<string>, actions: seq<Action<Op>>)
    ensures var w := Exec(m, Start(stored), actions);
            var steps := Linearize(m, Start(stored), actions);
            && AtomicExec(m, stored, steps) == w.stored
            && Writes(m, stored, steps) == Ops(w.history)
            && Heard(w.replies, AtomicReplies(m, stored, steps))
            && OutrunSound(w)
  {
    if actions != [] {
      var n := |actions| - 1;
      InterleavingRefinesAtomic(m, stored, actions[..n]);
      RunKeepsInv(m, stored, actions[..n]);
      RunKeepsInv(m, stored, actions);
      StepAnswers(m, Exec(m, Start(stored), actions[..n]), actions[n], stored,
        Linearize(m, Start(stored), actions[..n]));
      StepRefines(m, Exec(m, Start(stored), actions[..n]), actions[n], stored,
        Linearize(m, Start(stored), actions[..n]));
    }
  }

  /* ---- Every call is accounted for ---- */

  function Begun<Op>(actions: seq<Action<Op>>): nat {
    if actions == [] then 0 else Begun(actions[..|actions| - 1]) + if actions[|actions| - 1].Read? then 1 else 0
  }

  /** The step ends a pending call of which nobody hears: its caller crashes or begins another one, or it is
      outrun and its connection lost. */
  predicate Silences<Op>(w: World<Op>, a: Action<Op>) {
    && !a.Boot? && a.caller in w.pending
    && (a.Swap? ==> !a.heard && w.stored != Some(w.pending[a.caller].expected))
  }

  function Silenced<Op>(m: Machine<Op>, w: World<Op>, actions: seq<Action<Op>>): nat {
    if actions == [] then 0 else
      Silenced(m, w, actions[..|actions| - 1])
      + if Silences(Exec(m, w, actions[..|actions| - 1]), actions[|actions| - 1]) then 1 else 0
  }

  /** The calls that are answered, outrun or pending. */
  function Count<Op>(w: World<Op>): nat { |w.replies| + |w.outrun| + |w.pending| }

  lemma ReadAccounted<Op>(m: Machine<Op>, w: World<Op>, caller: nat, op: Op)
    ensures Count(Apply(m, w, Read(caller, op))) + (if caller in w.pending then 1 else 0) == Count(w) + 1
  {
    Apart(w.pending, caller);
    if w.stored.Some? && m.judge(w.stored.value, op).Some? {
      var p := Pending(op, w.stored.value, m.judge(w.stored.value, op).value, |w.history|);
      assert w.pending[caller := p] == (w.pending - {caller})[caller := p];
    }
  }

  lemma SwapAccounted<Op>(m: Machine<Op>, w: World<Op>, caller: nat, heard: bool)
    ensures Count(Apply(m, w, Swap(caller, heard))) + (if Silences(w, Swap(caller, heard)) then 1 else 0) == Count(w)
    ensures caller !in Apply(m, w, Swap(caller, heard)).pending
  {
    Apart(w.pending, caller);
  }

  lemma StepAccounted<Op>(m: Machine<Op>, w: World<Op>, a: Action<Op>)
    ensures Count(Apply(m, w, a)) + (if Silences(w, a) then 1 else 0) == Count(w) + (if a.Read? then 1 else 0)
    ensures a.Swap? || a.Crash? ==> a.caller !in Apply(m, w, a).pending
  {
    match a
    case Boot =>
    case Read(caller, op) => ReadAccounted(m, w, caller, op);
    case Swap(caller, heard) => SwapAccounted(m, w, caller, heard);
    case Crash(caller) => Apart(w.pending, caller);
  }

  lemma Apart<K, V>(m: map<K, V>, k: K)
    ensures |m| == |m - {k}| + if k in m then 1 else 0
  {
    if k in m {
      assert m == (m - {k})[k := m[k]];
    } else {
      assert m == m - {k};
    }
  }

  /** In every run every call begun is answered, outrun, still pending or silenced, and is one of these once;
      and a swap or a crash ends its call. */
  lemma {:induction false} CallsAccounted<Op>(m: Machine<Op>, stored: Option<string>, actions: seq<Action<Op>>)
    ensures var w := Exec(m, Start(stored), actions);
            && Count(w) + Silenced(m, Start(stored), actions) == Begun(actions)
            && (actions != [] && (actions[|actions| - 1].Swap? || actions[|actions| - 1].Crash?) ==>
                  actions[|actions| - 1].caller !in w.pending)
  {
    if actions != [] {
      CallsAccounted(m, stored, actions[..|actions| - 1]);
      StepAccounted(m, Exec(m, Start(stored), actions[..|actions| - 1]), actions[|actions| - 1]);
    }
  }
}
