/** The edit log behind a multi-select (ChangeSet.ts): a list of additions and removals. */
module ChangeSets {
  import opened Sorting

  /** Something with an id; `content` is all the rest of it. */
  datatype Item<V> = Item(id: int, content: V)

  datatype Change<V> = Add(generatedId: int, value: Item<V>) | Remove(id: int)

  function AddedIn<V(==,!new)>(changes: seq<Change<V>>): seq<Item<V>> {
    if changes == [] then []
    else
      AddedIn(changes[..|changes| - 1]) +
      match changes[|changes| - 1]
      case Add(generatedId, value) => [value.(id := generatedId)]
      case Remove(_) => []
  }

  function RemovedIn<V(==,!new)>(changes: seq<Change<V>>): set<int> {
    set c | c in changes && c.Remove? :: c.id
  }

  datatype ChangeSet<V(==,!new)> = ChangeSet(changes: seq<Change<V>>) {
    /** `add`; with `originals`, a value that equals an original only takes its removal back. */
    function Plus(value: Item<V>, generatedId: int, originals: Option<seq<Item<V>>>,
                  same: (Item<V>, Item<V>) -> bool): ChangeSet<V>
    {
      var found := if originals.Some? then Filter(originals.value, (o: Item<V>) => same(value, o)) else [];
      if found != [] then
        ChangeSet(Filter(changes, (c: Change<V>) => !(c.Remove? && c.id == found[0].id)))
      else
        ChangeSet(changes + [Change.Add(generatedId, value)])
    }

    predicate Generated(id: int) { exists c :: c in changes && c.Add? && c.generatedId == id }

    /** `remove`; removing an addition drops it from the log. */
    function Minus(id: int): ChangeSet<V> {
      if Generated(id) then ChangeSet(Filter(changes, (c: Change<V>) => !(c.Add? && c.generatedId == id)))
      else ChangeSet(changes + [Change.Remove(id)])
    }

    /** `apply`: one change after the other. */
    function Apply(items: seq<Item<V>>): seq<Item<V>>
      decreases |changes|
    {
      if changes == [] then items
      else
        var before := ChangeSet(changes[..|changes| - 1]).Apply(items);
        match changes[|changes| - 1]
        case Add(generatedId, value) => before + [value.(id := generatedId)]
        case Remove(id) => Filter(before, (i: Item<V>) => i.id != id)
    }

    /** What the two lists that are sent to the server say: drop these, then append those. */
    function AtOnce(items: seq<Item<V>>): seq<Item<V>> {
      Filter(items, (i: Item<V>) => i.id !in RemovedIn(changes)) + AddedIn(changes)
    }

    /** No addition is followed by a removal of its id. */
    ghost predicate Normal() {
      forall i, j :: 0 <= i < j < |changes| && changes[i].Add? && changes[j].Remove? ==>
        changes[i].generatedId != changes[j].id
    }
  }

  lemma {:induction false} FilterKeepsAll<T(!new)>(xs: seq<T>, keep: T -> bool)
    ensures |Filter(xs, keep)| == |xs| ==> Filter(xs, keep) == xs
    ensures |Filter(xs, keep)| < |xs| <==> exists x :: x in xs && !keep(x)
  {
    if xs != [] {
      FilterKeepsAll(xs[1..], keep);
      assert forall x :: x in xs <==> x == xs[0] || x in xs[1..];
    }
  }

  lemma {:induction false} AddedIds<V(!new)>(changes: seq<Change<V>>, id: int)
    ensures (exists a :: a in AddedIn(changes) && a.id == id) <==> ChangeSet(changes).Generated(id)
  {
    if changes != [] {
      var n := |changes| - 1;
      AddedIds(changes[..n], id);
      assert forall c :: c in changes <==> c in changes[..n] || c == changes[n];
      if changes[n].Add? {
        var a := changes[n].value.(id := changes[n].generatedId);
        assert a in AddedIn(changes);
      }
    }
  }

  lemma NormalStep<V(!new)>(rest: ChangeSet<V>, last: Change<V>)
    ensures ChangeSet(rest.changes + [last]).Normal() <==> rest.Normal() && (last.Remove? ==> !rest.Generated(last.id))
  {
    var changes := rest.changes + [last];
    var n := |rest.changes|;
    if ChangeSet(changes).Normal() {
      forall i, j | 0 <= i < j < n && rest.changes[i].Add? && rest.changes[j].Remove?
        ensures rest.changes[i].generatedId != rest.changes[j].id
      {
        assert changes[i] == rest.changes[i] && changes[j] == rest.changes[j];
      }
      if last.Remove? {
        forall c | c in rest.changes && c.Add? ensures c.generatedId != last.id {
          var i :| 0 <= i < n && rest.changes[i] == c;
          assert changes[i] == c && changes[n] == last;
        }
      }
    } else {
      var i, j :| 0 <= i < j <= n && changes[i].Add? && changes[j].Remove? && changes[i].generatedId == changes[j].id;
      assert changes[i] in rest.changes;
    }
  }

  lemma DropSame<V(!new)>(items: seq<Item<V>>, xs: set<int>, ys: set<int>)
    requires xs == ys
    ensures Filter(items, (i: Item<V>) => i.id !in xs) == Filter(items, (i: Item<V>) => i.id !in ys)
  {
    FilterFuse(items, (i: Item<V>) => i.id !in xs, (i: Item<V>) => true, (i: Item<V>) => i.id !in ys);
    FilterKeepsAll(Filter(items, (i: Item<V>) => i.id !in xs), (i: Item<V>) => true);
  }

  lemma RemovedAppend<V(!new)>(changes: seq<Change<V>>, last: Change<V>)
    ensures RemovedIn(changes + [last]) == RemovedIn(changes) + if last.Remove? then {last.id} else {}
  {
    assert forall c :: c in changes + [last] <==> c in changes || c == last;
  }

  /** Applying treats the originals and the additions apart. */
  lemma {:induction false} ApplySplits<V(!new)>(cs: ChangeSet<V>, items: seq<Item<V>>)
    ensures cs.Apply(items) == Filter(items, (i: Item<V>) => i.id !in RemovedIn(cs.changes)) + cs.Apply([])
    decreases |cs.changes|
  {
    if cs.changes == [] {
      FilterKeepsAll(items, (i: Item<V>) => i.id !in RemovedIn(cs.changes));
    } else {
      var n := |cs.changes| - 1;
      var rest, last := ChangeSet(cs.changes[..n]), cs.changes[n];
      var before := RemovedIn(rest.changes);
      var kept := Filter(items, (i: Item<V>) => i.id !in before);
      ApplySplits(rest, items);
      assert cs.changes == rest.changes + [last];
      RemovedAppend(rest.changes, last);
      if last.Remove? {
        FilterFuse(items, (i: Item<V>) => i.id !in before, (i: Item<V>) => i.id != last.id,
                    (i: Item<V>) => i.id !in before + {last.id});
        FilterAppend(kept, rest.Apply([]), (i: Item<V>) => i.id != last.id);
        DropSame(items, RemovedIn(cs.changes), before + {last.id});
      } else {
        DropSame(items, RemovedIn(cs.changes), before);
      }
    }
  }

  /** The additions all survive exactly when no removal follows one of its id. */
  lemma {:induction false} AdditionsSurvive<V(!new)>(cs: ChangeSet<V>)
    ensures |cs.Apply([])| <= |AddedIn(cs.changes)|
    ensures cs.Normal() ==> cs.Apply([]) == AddedIn(cs.changes)
    ensures !cs.Normal() ==> |cs.Apply([])| < |AddedIn(cs.changes)|
    decreases |cs.changes|
  {
    if cs.changes != [] {
      var n := |cs.changes| - 1;
      var rest := ChangeSet(cs.changes[..n]);
      assert cs.changes == rest.changes + [cs.changes[n]];
      AdditionsSurvive(rest);
      NormalStep(rest, cs.changes[n]);
      if cs.changes[n].Remove? {
        var id := cs.changes[n].id;
        AddedIds(rest.changes, id);
        FilterKeepsAll(rest.Apply([]), (i: Item<V>) => i.id != id);
      }
    }
  }

  /** Applying the log and applying its two lists at once agree, whatever the originals, exactly
      when no addition in the log is followed by a removal of its id. */
  lemma ApplyIsAtOnce<V(!new)>(cs: ChangeSet<V>, items: seq<Item<V>>)
    ensures cs.Apply(items) == cs.AtOnce(items) <==> cs.Normal()
  {
    ApplySplits(cs, items);
    AdditionsSurvive(cs);
  }

  // ------------------------------------------------------------------------- logs that are edited

  /** What a user does with the control. Generated ids are clock readings and may repeat. */
  datatype Edit<!V> =
    | Adding(value: Item<V>, generatedId: int, originals: Option<seq<Item<V>>>, same: (Item<V>, Item<V>) -> bool)
    | Removing(id: int)

  function Edited<V(==,!new)>(edits: seq<Edit<V>>): ChangeSet<V> {
    if edits == [] then ChangeSet([])
    else
      var before := Edited(edits[..|edits| - 1]);
      match edits[|edits| - 1]
      case Adding(value, generatedId, originals, same) => before.Plus(value, generatedId, originals, same)
      case Removing(id) => before.Minus(id)
  }

  lemma {:induction false} FilterKeepsNormal<V(!new)>(changes: seq<Change<V>>, keep: Change<V> -> bool)
    requires ChangeSet(changes).Normal()
    ensures ChangeSet(Filter(changes, keep)).Normal()
    decreases |changes|
  {
    if changes != [] {
      var n := |changes| - 1;
      var rest := changes[..n];
      assert changes == rest + [changes[n]];
      NormalStep(ChangeSet(rest), changes[n]);
      FilterKeepsNormal(rest, keep);
      FilterAppend(rest, [changes[n]], keep);
      assert Filter([changes[n]], keep) == if keep(changes[n]) then [changes[n]] else [];
      if keep(changes[n]) {
        NormalStep(ChangeSet(Filter(rest, keep)), changes[n]);
      }
    }
  }

  lemma {:induction false} EditedIsNormal<V(!new)>(edits: seq<Edit<V>>)
    ensures Edited(edits).Normal()
  {
    if edits != [] {
      var n := |edits| - 1;
      var before := Edited(edits[..n]);
      EditedIsNormal(edits[..n]);
      match edits[n] {
        case Adding(value, generatedId, originals, same) =>
          var found := if originals.Some? then Filter(originals.value, (o: Item<V>) => same(value, o)) else [];
          if found != [] {
            FilterKeepsNormal(before.changes, (c: Change<V>) => !(c.Remove? && c.id == found[0].id));
          } else {
            NormalStep(before, Change.Add(generatedId, value));
          }
        case Removing(id) =>
          if before.Generated(id) {
            FilterKeepsNormal(before.changes, (c: Change<V>) => !(c.Add? && c.generatedId == id));
          } else {
            NormalStep(before, Change.Remove(id));
          }
      }
    }
  }

  /** After any edits, applying the log is dropping the removed originals and appending the added
      values; no generated id needs to be fresh for that. */
  lemma EveryEditing<V(!new)>(edits: seq<Edit<V>>, items: seq<Item<V>>)
    ensures Edited(edits).Apply(items) == Edited(edits).AtOnce(items)
  {
    EditedIsNormal(edits);
    ApplyIsAtOnce(Edited(edits), items);
  }

  // ----------------------------------------------------------------------- what an edit does

  /** Adding a value that is not one of the originals appends it. */
  lemma AddingAppends<V(!new)>(cs: ChangeSet<V>, value: Item<V>, generatedId: int,
                               originals: Option<seq<Item<V>>>, same: (Item<V>, Item<V>) -> bool, items: seq<Item<V>>)
    requires originals.Some? ==> forall o :: o in originals.value ==> !same(value, o)
    ensures cs.Plus(value, generatedId, originals, same).Apply(items) == cs.Apply(items) + [value.(id := generatedId)]
  {
    if originals.Some? {
      FilterEmpty(originals.value, (o: Item<V>) => same(value, o));
    }
    assert (cs.changes + [Change.Add(generatedId, value)])[..|cs.changes|] == cs.changes;
  }

  lemma {:induction false} RemovalsKeepAdded<V(!new)>(changes: seq<Change<V>>, id: int)
    ensures var rest := Filter(changes, (c: Change<V>) => !(c.Remove? && c.id == id));
            AddedIn(rest) == AddedIn(changes) && RemovedIn(rest) == RemovedIn(changes) - {id}
  {
    var keep := (c: Change<V>) => !(c.Remove? && c.id == id);
    if changes != [] {
      var n := |changes| - 1;
      RemovalsKeepAdded(changes[..n], id);
      assert changes == changes[..n] + [changes[n]];
      FilterAppend(changes[..n], [changes[n]], keep);
      assert Filter([changes[n]], keep) == if keep(changes[n]) then [changes[n]] else [];
      AddedAppend(Filter(changes[..n], keep), Filter([changes[n]], keep));
    }
    assert forall c :: c in Filter(changes, keep) <==> c in changes && keep(c);
  }

  lemma AddedAppend<V(!new)>(xs: seq<Change<V>>, ys: seq<Change<V>>)
    requires |ys| <= 1
    ensures AddedIn(xs + ys) == AddedIn(xs) + AddedIn(ys)
  {
    if ys != [] {
      assert (xs + ys)[..|xs|] == xs && ys[..0] == [];
    } else {
      assert xs + ys == xs;
    }
  }

  /** Adding a value that equals one of the originals only brings the first such original back. */
  lemma AddingRestores<V(!new)>(cs: ChangeSet<V>, value: Item<V>, generatedId: int, originals: seq<Item<V>>,
                                same: (Item<V>, Item<V>) -> bool, items: seq<Item<V>>, j: nat)
    requires cs.Normal() && j < |originals| && same(value, originals[j])
    requires forall k :: 0 <= k < j ==> !same(value, originals[k])
    ensures cs.Plus(value, generatedId, Some(originals), same).Apply(items) ==
            Filter(items, (i: Item<V>) => i.id !in RemovedIn(cs.changes) - {originals[j].id}) + AddedIn(cs.changes)
  {
    var found := Filter(originals, (o: Item<V>) => same(value, o));
    FindsFirst(originals, (o: Item<V>) => same(value, o), j);
    var id := originals[j].id;
    var after := cs.Plus(value, generatedId, Some(originals), same);
    FilterKeepsNormal(cs.changes, (c: Change<V>) => !(c.Remove? && c.id == found[0].id));
    RemovalsKeepAdded(cs.changes, id);
    ApplyIsAtOnce(after, items);
    FilterFuse(items, (i: Item<V>) => i.id !in RemovedIn(after.changes), (i: Item<V>) => true,
                (i: Item<V>) => i.id !in RemovedIn(cs.changes) - {id});
    FilterKeepsAll(Filter(items, (i: Item<V>) => i.id !in RemovedIn(after.changes)), (i: Item<V>) => true);
  }

  lemma {:induction false} FindsFirst<T(!new)>(xs: seq<T>, keep: T -> bool, j: nat)
    requires j < |xs| && keep(xs[j]) && forall k :: 0 <= k < j ==> !keep(xs[k])
    ensures Filter(xs, keep) != [] && Filter(xs, keep)[0] == xs[j]
  {
    if j > 0 {
      FindsFirst(xs[1..], keep, j - 1);
    }
  }

  /** Removing the id of an addition drops that addition and nothing else; removing any other id
      drops whatever has it. */
  lemma RemovingHides<V(!new)>(cs: ChangeSet<V>, id: int, items: seq<Item<V>>)
    requires cs.Normal()
    ensures cs.Generated(id) ==>
              cs.Minus(id).Apply(items) ==
              Filter(items, (i: Item<V>) => i.id !in RemovedIn(cs.changes)) +
              Filter(AddedIn(cs.changes), (i: Item<V>) => i.id != id)
    ensures !cs.Generated(id) ==> cs.Minus(id).Apply(items) == Filter(cs.Apply(items), (i: Item<V>) => i.id != id)
  {
    if cs.Generated(id) {
      FilterKeepsNormal(cs.changes, (c: Change<V>) => !(c.Add? && c.generatedId == id));
      ApplyIsAtOnce(cs.Minus(id), items);
      AdditionsKeepRemoved(cs.changes, id);
    } else {
      assert (cs.changes + [Change.Remove(id)])[..|cs.changes|] == cs.changes;
    }
  }

  lemma {:induction false} AdditionsKeepRemoved<V(!new)>(changes: seq<Change<V>>, id: int)
    ensures var rest := Filter(changes, (c: Change<V>) => !(c.Add? && c.generatedId == id));
            AddedIn(rest) == Filter(AddedIn(changes), (i: Item<V>) => i.id != id) && RemovedIn(rest) == RemovedIn(changes)
  {
    var keep := (c: Change<V>) => !(c.Add? && c.generatedId == id);
    if changes != [] {
      var n := |changes| - 1;
      AdditionsKeepRemoved(changes[..n], id);
      assert changes == changes[..n] + [changes[n]];
      FilterAppend(changes[..n], [changes[n]], keep);
      assert Filter([changes[n]], keep) == if keep(changes[n]) then [changes[n]] else [];
      AddedAppend(Filter(changes[..n], keep), Filter([changes[n]], keep));
      AddedAppend(changes[..n], [changes[n]]);
      FilterAppend(AddedIn(changes[..n]), AddedIn([changes[n]]), (i: Item<V>) => i.id != id);
    }
    assert forall c :: c in Filter(changes, keep) <==> c in changes && keep(c);
  }
}
