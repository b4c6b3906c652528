/** The stored authority row as the database holds it, and the operations as they run against
    it: one read, then one guarded update, with whatever the other incarnations do in between.
    `meanwhile` is the text the row holds when the guarded update executes; it is arbitrary.
    Models src/lubko/lifecycle_authority.py. */
module AuthorityStore {
  import opened Common
  import opened AuthorityRow
  import opened AuthorityOps
  import opened AuthorityAnswers

  class JobsRow {
    const codec: Codec
    const server: string
    var stored: Option<string>

    constructor (codec: Codec, server: string, initial: Option<string>)
      ensures this.codec == codec && this.server == server && stored == initial
    {
      this.codec := codec;
      this.server := server;
      stored := initial;
    }

    /** Insert the neutral row unless some contender already did, then read whatever is there. */
    method Bootstrap() returns (r: Result<Row>)
      requires server != ""
      modifies this`stored
      ensures old(stored).Some? ==> stored == old(stored)
      ensures old(stored).None? && CanonicalText(codec, NeutralRow(server)).Ok? ==>
              stored == Some(CanonicalText(codec, NeutralRow(server)).value)
      ensures old(stored).None? && CanonicalText(codec, NeutralRow(server)).Refused? ==>
              stored == None && r.Refused?
      ensures stored.Some? && CanonicalText(codec, NeutralRow(server)).Ok? ==>
              r == ParseRow(codec, stored.value, server)
    {
      var neutral := CanonicalText(codec, NeutralRow(server));
      if neutral.Refused? {
        return Refused;
      }
      if stored.None? {
        stored := Some(neutral.value);
      }
      r := ParseRow(codec, stored.value, server);
    }

    method CompareAndSwap(expected: string, candidate: string) returns (won: bool)
      modifies this`stored
      ensures won <==> old(stored) == Some(expected)
      ensures stored == if won then Some(candidate) else old(stored)
    {
      won := stored == Some(expected);
      if won {
        stored := Some(candidate);
      }
    }

    /** Commits the take exactly when the row still holds the text that was read; the loser
        changes nothing. An incarnation already named by the row adopts it without a write. */
    method Take(owner: Owner, meanwhile: Option<string>) returns (r: Result<Option<Row>>)
      modifies this`stored
      ensures var d := Decide(codec, server, old(stored), Op.Take(owner));
              && stored == (if d.Swap? && meanwhile == old(stored) then Some(d.candidate) else meanwhile)
              && (r.Refused? <==> d.Raised?)
              && (r == Ok(None) <==> d.Swap? && meanwhile != old(stored))
      ensures r.Ok? && r.value.Some? ==> r.value.value.owner == Some(owner)
      ensures Faithful(codec) && r.Ok? && r.value.Some? && meanwhile == old(stored) ==>
              stored.Some? && ParseRow(codec, stored.value, server) == Ok(r.value.value)
      ensures Faithful(codec) ==>
              Obeys(codec, server, Op.Take(owner), old(stored), meanwhile, stored,
                    match r case Ok(row) => Ok(row.Some?) case Refused => Refused)
    {
      ghost var was := stored;
      r := TakeRead(owner, meanwhile);
      if Faithful(codec) {
        DecisionObeys(codec, server, Op.Take(owner), was, meanwhile);
      }
    }

    method TakeRead(owner: Owner, meanwhile: Option<string>) returns (r: Result<Option<Row>>)
      modifies this`stored
      ensures var d := Decide(codec, server, old(stored), Op.Take(owner));
              && stored == (if d.Swap? && meanwhile == old(stored) then Some(d.candidate) else meanwhile)
              && (r.Refused? <==> d.Raised?)
              && (r == Ok(None) <==> d.Swap? && meanwhile != old(stored))
              && (d.Settled? ==> d == Settled(true))
      ensures r.Ok? && r.value.Some? ==> r.value.value.owner == Some(owner)
      ensures Faithful(codec) && r.Ok? && r.value.Some? && meanwhile == old(stored) ==>
              stored.Some? && ParseRow(codec, stored.value, server) == Ok(r.value.value)
    {
      var observed := stored;
      stored := meanwhile;
      var read := Observe(codec, server, observed);
      if read.Refused? || read.value.None? {
        return Refused;
      }
      var current := read.value.value;
      if current.owner == Some(owner) {
        return Ok(Some(current));
      }
      var updated := current.(epoch := current.epoch + 1, owner := Some(owner));
      var text := CanonicalText(codec, updated);
      if text.Refused? {
        return Refused;
      }
      var won := CompareAndSwap(observed.value, text.value);
      if !won {
        return Ok(None);
      }
      ParsedRowIsValid(codec, observed.value, server);
      if Faithful(codec) {
        RowRoundTrip(codec, updated);
      }
      r := Ok(Some(updated));
    }

    /** The remaining operations share one shape: decide from the text read, then swap. What each
        writes, answers and refuses is what the rows say. */
    method Transition(op: Op, meanwhile: Option<string>) returns (r: Result<bool>)
      requires !op.Take?
      modifies this`stored
      ensures var d := Decide(codec, server, old(stored), op);
              && stored == (if d.Swap? && meanwhile == old(stored) then Some(d.candidate) else meanwhile)
              && (r.Refused? <==> d.Raised?)
              && (r == Ok(true) <==> d == Settled(true) || (d.Swap? && meanwhile == old(stored)))
      ensures Faithful(codec) ==> Obeys(codec, server, op, old(stored), meanwhile, stored, r)
    {
      if Faithful(codec) {
        DecisionObeys(codec, server, op, stored, meanwhile);
      }
      var observed := stored;
      stored := meanwhile;
      match Decide(codec, server, observed, op) {
        case Raised =>
          r := Refused;
        case Settled(answer) =>
          r := Ok(answer);
        case Swap(candidate) =>
          var won := CompareAndSwap(observed.value, candidate);
          r := Ok(won);
      }
    }
  }
}
