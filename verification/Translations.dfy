/** Completing a partial translation: the difference to a complete one (script/diffTranslations.ts)
    and merging the translated difference back (script/mergeTranslations.ts). */
module Translations {
  import opened Sorting

  /** A complete translation, or a difference. */
  datatype Tree = Leaf(text: string) | Branch(children: map<string, Tree>)

  /** A partial translation; a missing value and a null are treated alike. */
  datatype Json = Text(text: string) | Null | Object(fields: map<string, Json>)

  function Get(fields: map<string, Json>, key: string): Json {
    if key in fields then fields[key] else Null
  }

  /** `value ?? {}` */
  function FieldsOf(value: Json): map<string, Json> {
    if value.Object? then value.fields else map[]
  }

  predicate Translated(value: Json) { !value.Null? && value != Text("") }

  /** The partial translation has no text where the complete one branches. */
  ghost predicate Compatible(tree: Tree, value: Json) {
    tree.Branch? ==>
      !value.Text? && forall k :: k in tree.children ==> Compatible(tree.children[k], Get(FieldsOf(value), k))
  }

  /** One value of the difference; `None` where nothing is left to translate. */
  function DiffValue(tree: Tree, value: Json): Option<Tree>
    requires Compatible(tree, value)
  {
    match tree
    case Leaf(_) => if Translated(value) then None else Some(tree)
    case Branch(children) =>
      var diff := map k | k in children && DiffValue(children[k], Get(FieldsOf(value), k)).Some?
                    :: DiffValue(children[k], Get(FieldsOf(value), k)).value;
      if diff == map[] then None else Some(Branch(diff))
  }

  /** `mergeObjects` for one value: the source over the destination. */
  function MergeValue(source: Tree, destination: Json): Json {
    match source
    case Leaf(text) => Text(text)
    case Branch(children) =>
      Object(map k | k in children.Keys + FieldsOf(destination).Keys ::
               if k in children then MergeValue(children[k], Get(FieldsOf(destination), k))
               else Get(FieldsOf(destination), k))
  }

  function Merge(source: Option<Tree>, destination: Json): Json {
    if source.None? then destination else MergeValue(source.value, destination)
  }

  // ------------------------------------------------------------------------------------ meaning

  /** What the complete translation has at a path, and what the partial one has. */
  function TreeAt(tree: Tree, path: seq<string>): Option<Tree> {
    if path == [] then Some(tree)
    else if tree.Leaf? || path[0] !in tree.children then None
    else TreeAt(tree.children[path[0]], path[1..])
  }

  function At(value: Json, path: seq<string>): Json
    decreases |path|
  {
    if path == [] then value else At(Get(FieldsOf(value), path[0]), path[1..])
  }

  ghost predicate IsLeaf(tree: Tree, path: seq<string>) {
    TreeAt(tree, path).Some? && TreeAt(tree, path).value.Leaf?
  }

  /** At every leaf of the complete translation the partial one has something, and not an empty text. */
  ghost predicate Complete(tree: Tree, value: Json) {
    forall path :: IsLeaf(tree, path) ==> At(value, path) != Null && At(value, path) != Text("")
  }

  lemma CompleteBranch(tree: Tree, value: Json)
    requires tree.Branch?
    ensures Complete(tree, value) <==>
            forall k :: k in tree.children ==> Complete(tree.children[k], Get(FieldsOf(value), k))
  {
    if Complete(tree, value) {
      forall k, path | k in tree.children && IsLeaf(tree.children[k], path)
        ensures At(Get(FieldsOf(value), k), path) != Null && At(Get(FieldsOf(value), k), path) != Text("")
      {
        assert ([k] + path)[1..] == path;
        assert IsLeaf(tree, [k] + path);
      }
    } else {
      var path :| IsLeaf(tree, path) && (At(value, path) == Null || At(value, path) == Text(""));
      assert IsLeaf(tree.children[path[0]], path[1..]);
      assert At(value, path) == At(Get(FieldsOf(value), path[0]), path[1..]);
    }
  }

  /** The difference is empty exactly when the partial translation is complete. */
  lemma {:induction false} DiffFindsMissing(tree: Tree, value: Json)
    requires Compatible(tree, value)
    ensures DiffValue(tree, value).None? <==> Complete(tree, value)
    decreases tree
  {
    match tree
    case Leaf(_) =>
      assert IsLeaf(tree, []);
      assert forall path :: IsLeaf(tree, path) ==> path == [];
    case Branch(children) =>
      CompleteBranch(tree, value);
      forall k | k in children
        ensures DiffValue(children[k], Get(FieldsOf(value), k)).None? <==> Complete(children[k], Get(FieldsOf(value), k))
      {
        DiffFindsMissing(children[k], Get(FieldsOf(value), k));
      }
      var diff := map k | k in children && DiffValue(children[k], Get(FieldsOf(value), k)).Some?
                    :: DiffValue(children[k], Get(FieldsOf(value), k)).value;
      if diff != map[] {
        var k :| k in diff;
      } else {
        forall k | k in children ensures DiffValue(children[k], Get(FieldsOf(value), k)).None? {
          assert k !in diff;
        }
      }
  }

  /** The value of a difference at a child, after merging. */
  lemma MergedChild(tree: Tree, value: Json, k: string)
    requires Compatible(tree, value) && tree.Branch? && k in tree.children
    ensures var child := Get(FieldsOf(value), k);
            Get(FieldsOf(Merge(DiffValue(tree, value), value)), k)
            == Merge(DiffValue(tree.children[k], child), child)
  {
    var child := Get(FieldsOf(value), k);
    var diff := map c | c in tree.children && DiffValue(tree.children[c], Get(FieldsOf(value), c)).Some?
                  :: DiffValue(tree.children[c], Get(FieldsOf(value), c)).value;
    if DiffValue(tree.children[k], child).Some? {
      assert k in diff;
    }
  }

  /** Merging the difference in leaves the shapes compatible. */
  lemma {:induction false} MergedCompatible(tree: Tree, value: Json)
    requires Compatible(tree, value)
    ensures Compatible(tree, Merge(DiffValue(tree, value), value))
    decreases tree
  {
    if tree.Branch? {
      forall k | k in tree.children
        ensures Compatible(tree.children[k], Get(FieldsOf(Merge(DiffValue(tree, value), value)), k))
      {
        MergedChild(tree, value, k);
        MergedCompatible(tree.children[k], Get(FieldsOf(value), k));
      }
    }
  }

  /** At a leaf of the complete translation, merging the difference in keeps what was translated
      and fills in what was not. */
  lemma {:induction false} MergedLeaf(tree: Tree, value: Json, path: seq<string>)
    requires Compatible(tree, value) && IsLeaf(tree, path)
    ensures At(Merge(DiffValue(tree, value), value), path) ==
            if Translated(At(value, path)) then At(value, path) else Text(TreeAt(tree, path).value.text)
    decreases tree
  {
    if tree.Branch? {
      MergedChild(tree, value, path[0]);
      MergedLeaf(tree.children[path[0]], Get(FieldsOf(value), path[0]), path[1..]);
    }
  }

  /** A path that the complete translation neither has nor ends before: merging leaves it alone. */
  lemma {:induction false} MergedElsewhere(tree: Tree, value: Json, path: seq<string>)
    requires Compatible(tree, value) && TreeAt(tree, path).None? && Translated(At(value, path))
    ensures At(Merge(DiffValue(tree, value), value), path) == At(value, path)
    decreases tree
  {
    if tree.Branch? && path[0] in tree.children {
      MergedChild(tree, value, path[0]);
      MergedElsewhere(tree.children[path[0]], Get(FieldsOf(value), path[0]), path[1..]);
    } else if tree.Leaf? {
      LeafWithFields(value, path);
    }
  }

  /** A value with something below it is not null and not a text. */
  lemma LeafWithFields(value: Json, path: seq<string>)
    requires path != [] && Translated(At(value, path))
    ensures value.Object? && Translated(value)
  {
    if !value.Object? {
      NothingBelow(path[1..]);
    }
  }

  lemma {:induction false} NothingBelow(path: seq<string>)
    ensures At(Null, path) == Null
  {
    if path != [] {
      NothingBelow(path[1..]);
    }
  }

  /**
   * After merging the difference into the partial translation there is no difference left, exactly
   * when every leaf with an empty text in the complete translation was translated already.
   */
  lemma MergingCompletes(tree: Tree, value: Json)
    requires Compatible(tree, value)
    ensures var merged := Merge(DiffValue(tree, value), value);
            Compatible(tree, merged) &&
            (DiffValue(tree, merged).None? <==>
               forall path :: IsLeaf(tree, path) && TreeAt(tree, path).value.text == "" ==> Translated(At(value, path)))
  {
    var merged := Merge(DiffValue(tree, value), value);
    MergedCompatible(tree, value);
    DiffFindsMissing(tree, merged);
    forall path | IsLeaf(tree, path)
      ensures Translated(At(merged, path)) <==> TreeAt(tree, path).value.text != "" || Translated(At(value, path))
    {
      MergedLeaf(tree, value, path);
    }
  }

  /** Every non-empty text of the partial translation is kept. */
  lemma {:induction false} MergingKeeps(tree: Tree, value: Json, path: seq<string>)
    requires Compatible(tree, value) && At(value, path).Text? && At(value, path).text != ""
    ensures At(Merge(DiffValue(tree, value), value), path) == At(value, path)
  {
    if IsLeaf(tree, path) {
      MergedLeaf(tree, value, path);
    } else if TreeAt(tree, path).None? {
      MergedElsewhere(tree, value, path);
    } else {
      BranchHoldsNoText(tree, value, path);
    }
  }

  lemma {:induction false} BranchHoldsNoText(tree: Tree, value: Json, path: seq<string>)
    requires Compatible(tree, value) && TreeAt(tree, path).Some? && TreeAt(tree, path).value.Branch?
    ensures !At(value, path).Text?
    decreases |path|
  {
    if path != [] {
      BranchHoldsNoText(tree.children[path[0]], Get(FieldsOf(value), path[0]), path[1..]);
    }
  }
}
