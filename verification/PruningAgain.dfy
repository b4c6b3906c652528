/** Pruning again when some removals failed the first time: the files that stayed although they were
    not chosen are met again, and ties between timestamps may be broken the other way. */
module PruningAgain {
  import opened Pruning

  /** The kept artifacts strictly newer than a moment. */
  function NewerThan(kept: seq<Artifact>, mtimeNs: int): (r: seq<Artifact>)
    ensures forall a :: a in r <==> a in kept && a.mtimeNs > mtimeNs
  {
    if kept == [] then []
    else
      var last := kept[|kept| - 1];
      NewerThan(kept[..|kept| - 1], mtimeNs) + if last.mtimeNs > mtimeNs then [last] else []
  }

  lemma {:induction false} NewerDistinguished(kept: seq<Artifact>, mtimeNs: int)
    requires Distinguished(kept)
    ensures Distinguished(NewerThan(kept, mtimeNs))
  {
    if kept != [] {
      var n := |kept| - 1;
      PrefixDistinguished(kept, n);
      NewerDistinguished(kept[..n], mtimeNs);
      if kept[n].mtimeNs > mtimeNs {
        AddDistinguished(NewerThan(kept[..n], mtimeNs), kept[n]);
      }
    }
  }

  lemma BytesAdd(kept: seq<Artifact>, a: Artifact)
    ensures Bytes(kept + [a]) == Bytes(kept) + a.size
  {
    assert (kept + [a])[..|kept|] == kept;
  }

  /** Distinct artifacts among others take no more room than they do. */
  lemma {:induction false} SubBag(a: seq<Artifact>, b: seq<Artifact>)
    requires Distinguished(a) && forall x :: x in a ==> x in b
    ensures |a| <= |b| && Bytes(a) <= Bytes(b)
    decreases |a|
  {
    if a != [] {
      var n := |a| - 1;
      assert a[n] in b;
      var k :| 0 <= k < |b| && b[k] == a[n];
      PrefixDistinguished(a, n);
      var rest := b[..k] + b[k + 1..];
      TakeOut(b, k);
      forall x | x in a[..n] ensures x in rest {
        assert x in a && x != b[k];
        assert x in multiset(b) && x in multiset(rest);
      }
      SubBag(a[..n], rest);
    }
  }

  /** An artifact left behind that would fit beside the strictly newer kept ones may, met earlier,
      push a kept one out. */
  predicate Intrudes(w: Window, kept: seq<Artifact>, d: Artifact) {
    d !in kept && Recent(w, d) && Fits(w, NewerThan(kept, d.mtimeNs), d)
  }

  /** A second order over what the first left: every kept artifact, and some that were not. */
  ghost predicate Remains(w: Window, order: seq<Artifact>, second: seq<Artifact>) {
    && NewestFirst(order) && Distinguished(order) && NewestFirst(second) && Distinguished(second)
    && (forall a :: a in Retained(w, order) ==> a in second) && (forall a :: a in second ==> a in order)
  }

  /** A kept artifact fits beside any other kept ones. */
  lemma KeptFitsAgain(w: Window, kept: seq<Artifact>, so: seq<Artifact>, x: Artifact)
    requires Settled(w, kept) && x in kept && Distinguished(so) && x !in so && forall a :: a in so ==> a in kept
    ensures Fits(w, so, x)
  {
    AddDistinguished(so, x);
    SubBag(so + [x], kept);
    BytesAdd(so, x);
  }

  /** All kept artifacts newer than one in the order stand before it. */
  lemma NewerAhead(w: Window, order: seq<Artifact>, second: seq<Artifact>, i: nat, a: Artifact)
    requires Remains(w, order, second) && i < |second| && a in NewerThan(Retained(w, order), second[i].mtimeNs)
    ensures a in second[..i]
  {
    assert a in second;
    var j :| 0 <= j < |second| && second[j] == a;
    assert j < i;
    assert second[..i][j] == a;
  }

  /** As long as no intruder has been met, the second walk has kept just what the first did. */
  lemma {:induction false} SameSoFar(w: Window, order: seq<Artifact>, second: seq<Artifact>, i: nat)
    requires Remains(w, order, second) && i <= |second|
    requires forall d :: d in second[..i] ==> !Intrudes(w, Retained(w, order), d)
    ensures forall a :: a in Retained(w, second[..i]) <==> a in Retained(w, order) && a in second[..i]
  {
    if i > 0 {
      var kept, x, front := Retained(w, order), second[i - 1], second[..i - 1];
      assert second[..i][..i - 1] == front && second[..i] == front + [x];
      SameSoFar(w, order, second, i - 1);
      StepSame(w, order, second, i - 1);
    }
  }

  lemma StepSame(w: Window, order: seq<Artifact>, second: seq<Artifact>, i: nat)
    requires Remains(w, order, second) && i < |second| && !Intrudes(w, Retained(w, order), second[i])
    requires forall a :: a in Retained(w, second[..i]) <==> a in Retained(w, order) && a in second[..i]
    ensures Recent(w, second[i]) && Fits(w, Retained(w, second[..i]), second[i]) <==> second[i] in Retained(w, order)
  {
    var kept, x, so := Retained(w, order), second[i], Retained(w, second[..i]);
    RetainedSettled(w, order);
    PrefixDistinguished(second, i);
    RetainedDistinguished(w, second[..i]);
    if x in kept {
      KeptFitsAgain(w, kept, so, x);
    } else if Recent(w, x) {
      RetainedDistinguished(w, order);
      NewerDistinguished(kept, x.mtimeNs);
      forall a | a in NewerThan(kept, x.mtimeNs) ensures a in so {
        NewerAhead(w, order, second, i, a);
      }
      SubBag(NewerThan(kept, x.mtimeNs), so);
    }
  }

  /** An intruder met before every artifact of its own time pushes some kept artifact out. */
  lemma IntruderCosts(w: Window, order: seq<Artifact>, second: seq<Artifact>, j: nat) returns (lost: Artifact)
    requires Remains(w, order, second) && j < |second| && Intrudes(w, Retained(w, order), second[j])
    requires forall i :: 0 <= i < j ==> second[i].mtimeNs > second[j].mtimeNs
    requires forall i :: 0 <= i < j ==> !Intrudes(w, Retained(w, order), second[i])
    ensures lost in Retained(w, order) && lost !in Retained(w, second)
  {
    var kept, d := Retained(w, order), second[j];
    IntruderKept(w, order, second, j);
    var won := Retained(w, second);
    if forall a :: a in kept ==> a in won {
      RetainedDistinguished(w, order);
      AddDistinguished(kept, d);
      RetainedSettled(w, second);
      SubBag(kept + [d], won);
      BytesAdd(kept, d);
      DroppedDoesNotFit(w, order, d);
      assert false;
    }
    lost :| lost in kept && lost !in won;
  }

  lemma IntruderKept(w: Window, order: seq<Artifact>, second: seq<Artifact>, j: nat)
    requires Remains(w, order, second) && j < |second| && Intrudes(w, Retained(w, order), second[j])
    requires forall i :: 0 <= i < j ==> second[i].mtimeNs > second[j].mtimeNs
    requires forall i :: 0 <= i < j ==> !Intrudes(w, Retained(w, order), second[i])
    ensures second[j] in Retained(w, second)
  {
    var kept, d, front := Retained(w, order), second[j], second[..j];
    forall x | x in front ensures !Intrudes(w, kept, x) {
      var i :| 0 <= i < j && second[i] == x;
    }
    SameSoFar(w, order, second, j);
    var so, newer := Retained(w, front), NewerThan(kept, d.mtimeNs);
    PrefixDistinguished(second, j);
    RetainedDistinguished(w, front);
    forall a | a in so ensures a in newer {
      var i :| 0 <= i < j && second[i] == a;
    }
    SubBag(so, newer);
    KeptIffFits(w, second, j);
  }

  /** A recent artifact the walk did not keep does not fit beside all it kept. */
  lemma DroppedDoesNotFit(w: Window, order: seq<Artifact>, d: Artifact)
    requires NewestFirst(order) && Distinguished(order) && d in order && d !in Retained(w, order) && Recent(w, d)
    ensures !Fits(w, Retained(w, order), d)
  {
    var i :| 0 <= i < |order| && order[i] == d;
    KeptIffFits(w, order, i);
    PrefixDistinguished(order, i);
    RetainedDistinguished(w, order[..i]);
    SubBag(Retained(w, order[..i]), Retained(w, order));
  }

  // ---- scanning an intruder first --------------------------------------------------------

  /** Everything ahead of position `j` is strictly newer than what stands there. */
  predicate Leads(order: seq<Artifact>, j: nat, d: Artifact) {
    j < |order| && order[j] == d && forall i :: 0 <= i < j ==> order[i].mtimeNs > d.mtimeNs
  }

  lemma {:induction false} InsertLeads(a: Artifact, order: seq<Artifact>, j: nat, d: Artifact) returns (k: nat)
    requires NewestFirst(order) && Leads(order, j, d)
    ensures Leads(Insert(a, order), k, d)
  {
    var n := |order| - 1;
    if order[n].mtimeNs >= a.mtimeNs {
      k := j;
    } else {
      var front := Insert(a, order[..n]);
      if j < n {
        k := InsertLeads(a, order[..n], j, d);
      } else {
        k := |front|;
        forall i | 0 <= i < |front| ensures front[i].mtimeNs > d.mtimeNs {
          assert front[i] in front;
          assert front[i] == a || front[i] in order[..n];
          assert forall m :: 0 <= m < n ==> order[..n][m].mtimeNs > d.mtimeNs;
        }
      }
    }
  }

  /** What is met first stands ahead of everything of its time. */
  lemma {:induction false} SortedLeads(found: seq<Artifact>) returns (k: nat)
    requires found != []
    ensures Leads(Sorted(found), k, found[0])
    decreases |found|
  {
    var n := |found| - 1;
    if n == 0 {
      assert found[..0] == [];
      k := 0;
      assert Sorted(found) == [found[0]];
    } else {
      var j := SortedLeads(found[..n]);
      k := InsertLeads(found[n], Sorted(found[..n]), j, found[0]);
    }
  }

  lemma {:induction false} CollectHead(files: map<string, File>, keep: string, first: string, rest: seq<string>)
    requires Superseded(files, keep, first)
    ensures Collect(files, keep, [first] + rest) == [Collected(files, first)] + Collect(files, keep, rest)
    decreases |rest|
  {
    var names := [first] + rest;
    if rest == [] {
      assert names[..0] == [];
    } else {
      var n := |rest| - 1;
      CollectHead(files, keep, first, rest[..n]);
      assert names[..|names| - 1] == [first] + rest[..n];
    }
  }

  /** The names still there, without one. */
  function Others(names: seq<string>, files: map<string, File>, first: string): (r: seq<string>)
    ensures forall name :: name in r <==> name in names && name in files && name != first
  {
    if names == [] then []
    else
      var last := names[|names| - 1];
      Others(names[..|names| - 1], files, first) + if last in files && last != first then [last] else []
  }

  lemma {:induction false} OthersDistinct(names: seq<string>, files: map<string, File>, first: string)
    requires Pruning.Distinct(names)
    ensures Pruning.Distinct(Others(names, files, first))
  {
    if names != [] {
      OthersDistinct(names[..|names| - 1], files, first);
    }
  }

  // ---- the directory ---------------------------------------------------------------------

  /** No file that stayed although it was not chosen would fit beside the strictly newer chosen ones. */
  predicate Harmless(files: map<string, File>, keep: string, names: seq<string>, w: Window, stuck: set<string>) {
    forall name :: name in names && name in stuck && Dropped(files, keep, names, w, name) ==>
      !Intrudes(w, Choice(files, keep, names, w), Collected(files, name))
  }

  ghost predicate SameChoice(a: seq<Artifact>, b: seq<Artifact>) { forall x :: x in a <==> x in b }

  /** An artifact the first pass left: chosen, or dropped and stuck. */
  predicate Stayed(files: map<string, File>, keep: string, names: seq<string>, w: Window, stuck: set<string>,
                   a: Artifact)
  {
    && a.name in names && a.name in files && a == Collected(files, a.name)
    && (a in Choice(files, keep, names, w) || (a.name in stuck && Dropped(files, keep, names, w, a.name)))
  }

  /** It stayed, was not chosen, and intrudes. */
  predicate Intruder(files: map<string, File>, keep: string, names: seq<string>, w: Window, stuck: set<string>,
                     a: Artifact)
  {
    Stayed(files, keep, names, w, stuck, a) && Intrudes(w, Choice(files, keep, names, w), a)
  }

  lemma SecondRemains(
    files: map<string, File>, matches: string -> bool, keep: string, names: seq<string>, again: seq<string>,
    w: Window, stuck: set<string>)
    requires Scan(files, matches, names) && Scan(Pruned(files, keep, names, w, stuck), matches, again)
    ensures var after := Pruned(files, keep, names, w, stuck);
            var order, second := Sorted(Collect(files, keep, names)), Sorted(Collect(after, keep, again));
            && Remains(w, order, second)
            && (forall a :: a in second ==> Stayed(files, keep, names, w, stuck, a))
  {
    var after := Pruned(files, keep, names, w, stuck);
    var found, seen := Collect(files, keep, names), Collect(after, keep, again);
    var order, second := Sorted(found), Sorted(seen);
    CollectDistinct(files, keep, names);
    CollectDistinct(after, keep, again);
    RetainedSettled(w, order);
    forall a ensures (a in order <==> a in found) && (a in second <==> a in seen) {
      assert a in multiset(order) <==> a in multiset(found);
      assert a in multiset(second) <==> a in multiset(seen);
      CollectMembers(files, keep, names, a);
      CollectMembers(after, keep, again, a);
    }
    forall a | a in Retained(w, order) ensures a in second {
      CollectMembers(files, keep, names, a);
      CollectMembers(after, keep, again, a);
    }
    forall a | a in second
      ensures a in order && Stayed(files, keep, names, w, stuck, a)
    {
      CollectMembers(files, keep, names, a);
      CollectMembers(after, keep, again, a);
    }
  }

  lemma HarmlessSame(
    files: map<string, File>, matches: string -> bool, keep: string, names: seq<string>, again: seq<string>,
    w: Window, stuck: set<string>)
    requires Scan(files, matches, names) && Scan(Pruned(files, keep, names, w, stuck), matches, again)
    requires Harmless(files, keep, names, w, stuck)
    ensures SameChoice(Choice(Pruned(files, keep, names, w, stuck), keep, again, w), Choice(files, keep, names, w))
  {
    SecondRemains(files, matches, keep, names, again, w, stuck);
    var order := Sorted(Collect(files, keep, names));
    var second := Sorted(Collect(Pruned(files, keep, names, w, stuck), keep, again));
    forall d | d in second ensures !Intrudes(w, Retained(w, order), d) {
      assert Stayed(files, keep, names, w, stuck, d);
    }
    assert second[..|second|] == second;
    SameSoFar(w, order, second, |second|);
  }

  /** The newest intruder, if there is any. */
  lemma {:induction false} NewestIntruder(
    files: map<string, File>, keep: string, names: seq<string>, w: Window, stuck: set<string>, order: seq<Artifact>,
    n: nat)
    returns (i: nat)
    requires n < |order| && Intruder(files, keep, names, w, stuck, order[n])
    ensures i <= n && Intruder(files, keep, names, w, stuck, order[i])
    ensures forall j :: 0 <= j < i ==> !Intruder(files, keep, names, w, stuck, order[j])
  {
    if j :| 0 <= j < n && Intruder(files, keep, names, w, stuck, order[j]) {
      i := NewestIntruder(files, keep, names, w, stuck, order, j);
    } else {
      i := n;
    }
  }

  /** A scan of what is left that meets a given file first. */
  lemma ScanFrom(
    files: map<string, File>, after: map<string, File>, matches: string -> bool, names: seq<string>, first: string)
    returns (again: seq<string>)
    requires Scan(files, matches, names) && (forall name :: name in after ==> name in files)
    requires first in after && matches(first)
    ensures Scan(after, matches, again) && again == [first] + Others(names, after, first)
  {
    again := [first] + Others(names, after, first);
    OthersDistinct(names, after, first);
    forall name ensures name in again <==> name in after && matches(name) {}
  }

  /** It can be arranged that a file that stayed is met, and stands, ahead of everything of its time. */
  lemma MeetFirst(
    files: map<string, File>, matches: string -> bool, keep: string, names: seq<string>, w: Window, stuck: set<string>,
    d: Artifact)
    returns (again: seq<string>, k: nat)
    requires Scan(files, matches, names) && Intruder(files, keep, names, w, stuck, d)
    ensures var after := Pruned(files, keep, names, w, stuck);
            Scan(after, matches, again) && Leads(Sorted(Collect(after, keep, again)), k, d)
  {
    var after := Pruned(files, keep, names, w, stuck);
    assert d.name in after && Superseded(after, keep, d.name) && Collected(after, d.name) == d;
    again := ScanFrom(files, after, matches, names, d.name);
    CollectHead(after, keep, d.name, Others(names, after, d.name));
    k := SortedLeads(Collect(after, keep, again));
  }

  /** Nothing that stands ahead of the newest intruder intrudes. */
  lemma NoneAhead(
    files: map<string, File>, keep: string, names: seq<string>, w: Window, stuck: set<string>,
    order: seq<Artifact>, i: nat, a: Artifact)
    requires NewestFirst(order) && i < |order| && a in order && a.mtimeNs > order[i].mtimeNs
    requires Stayed(files, keep, names, w, stuck, a)
    requires forall j :: 0 <= j < i ==> !Intruder(files, keep, names, w, stuck, order[j])
    ensures !Intrudes(w, Choice(files, keep, names, w), a)
  {
    var j :| 0 <= j < |order| && order[j] == a;
    assert j < i;
  }

  lemma IntruderChangesChoice(
    files: map<string, File>, matches: string -> bool, keep: string, names: seq<string>, w: Window, stuck: set<string>,
    n: nat)
    returns (again: seq<string>)
    requires Scan(files, matches, names)
    requires var order := Sorted(Collect(files, keep, names));
             n < |order| && Intruder(files, keep, names, w, stuck, order[n])
    ensures var after := Pruned(files, keep, names, w, stuck);
            && Scan(after, matches, again)
            && !SameChoice(Choice(after, keep, again, w), Choice(files, keep, names, w))
  {
    var after := Pruned(files, keep, names, w, stuck);
    var order := Sorted(Collect(files, keep, names));
    var i := NewestIntruder(files, keep, names, w, stuck, order, n);
    var k;
    again, k := MeetFirst(files, matches, keep, names, w, stuck, order[i]);
    var second := Sorted(Collect(after, keep, again));
    SecondRemains(files, matches, keep, names, again, w, stuck);
    forall m | 0 <= m < k ensures !Intrudes(w, Retained(w, order), second[m]) {
      assert second[m] in second;
      NoneAhead(files, keep, names, w, stuck, order, i, second[m]);
    }
    var lost := IntruderCosts(w, order, second, k);
  }

  /** The position of a dropped file in the order of the first pass. */
  lemma DroppedAt(files: map<string, File>, keep: string, names: seq<string>, w: Window, name: string) returns (n: nat)
    requires Dropped(files, keep, names, w, name)
    ensures var order := Sorted(Collect(files, keep, names)); n < |order| && order[n] == Collected(files, name)
  {
    var found, a := Collect(files, keep, names), Collected(files, name);
    CollectMembers(files, keep, names, a);
    assert a in multiset(found) && a in multiset(Sorted(found));
    n :| 0 <= n < |Sorted(found)| && Sorted(found)[n] == a;
  }

  /** A second pass chooses the same files, whatever order it meets them in, if and only if no file that
      stayed unchosen would fit beside the strictly newer chosen ones. Then, as long as what was stuck
      stays stuck, it removes nothing. */
  lemma SecondPassSameIff(
    files: map<string, File>, matches: string -> bool, keep: string, names: seq<string>, w: Window, stuck: set<string>)
    requires Scan(files, matches, names)
    ensures var after := Pruned(files, keep, names, w, stuck);
            && (Harmless(files, keep, names, w, stuck) <==>
                forall again :: Scan(after, matches, again) ==>
                  SameChoice(Choice(after, keep, again, w), Choice(files, keep, names, w)))
            && (Harmless(files, keep, names, w, stuck) ==>
                forall again :: Scan(after, matches, again) ==> Pruned(after, keep, again, w, stuck) == after)
  {
    var after := Pruned(files, keep, names, w, stuck);
    if Harmless(files, keep, names, w, stuck) {
      forall again | Scan(after, matches, again)
        ensures SameChoice(Choice(after, keep, again, w), Choice(files, keep, names, w))
        ensures Pruned(after, keep, again, w, stuck) == after
      {
        HarmlessSame(files, matches, keep, names, again, w, stuck);
        SameChoiceRemovesNothing(files, matches, keep, names, again, w, stuck);
      }
    } else {
      var name :| name in names && name in stuck && Dropped(files, keep, names, w, name)
                  && Intrudes(w, Choice(files, keep, names, w), Collected(files, name));
      var n := DroppedAt(files, keep, names, w, name);
      var again := IntruderChangesChoice(files, matches, keep, names, w, stuck, n);
    }
  }

  lemma SameChoiceRemovesNothing(
    files: map<string, File>, matches: string -> bool, keep: string, names: seq<string>, again: seq<string>,
    w: Window, stuck: set<string>)
    requires Scan(files, matches, names) && Scan(Pruned(files, keep, names, w, stuck), matches, again)
    requires SameChoice(Choice(Pruned(files, keep, names, w, stuck), keep, again, w), Choice(files, keep, names, w))
    ensures var after := Pruned(files, keep, names, w, stuck); Pruned(after, keep, again, w, stuck) == after
  {
    var after := Pruned(files, keep, names, w, stuck);
    forall name | name in after ensures !Dropped(after, keep, again, w, name) || name in stuck {
      if Dropped(after, keep, again, w, name) {
        assert Collected(after, name) == Collected(files, name);
        assert Collected(files, name) !in Choice(files, keep, names, w);
      }
    }
  }
}
