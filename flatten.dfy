/**
 * What one call of `Config::readOptions` does to the static options array,
 * as a function of its arguments and of the array's contents before the call,
 * and a reference description of the result: the list of scalar leaves of
 * the options tree, each with its path from the root.
 */
module Flatten {
  import opened ConfigValues
  import opened DottedKeys

  /** The largest depth readOptions accepts. */
  const MaxDepth := 5

  /** What a readOptions call leaves behind: the contents of the static
      options array and the exception it threw, if any. */
  datatype Run = Run(options: map<string, Scalar>, error: Option<ConfigError>)

  /** One readOptions call on `entries` with the given prefix and depth,
      starting from the static array `options`. The depth is checked before
      anything else; at depth 0 the array is emptied first. An error is
      always the depth error: at the depth of the call itself when that is
      out of range, and otherwise one level below 5. */
  function Read(entries: seq<Entry>, prefix: string, depth: int, options: map<string, Scalar>): (r: Run)
    ensures r.error.Some? ==> r.error.value.Depth?
    ensures r.error.Some? ==> r.error.value.depth == if 0 <= depth <= MaxDepth then MaxDepth + 1 else depth
    decreases entries, 1
  {
    if depth < 0 || depth > MaxDepth then Run(options, Some(Depth(prefix, depth)))
    else ReadEntries(entries, prefix, depth, if depth == 0 then map[] else options)
  }

  /** The `foreach` of readOptions over `entries`, from the given array. An
      exception thrown by a nested call ends the loop with the array as the
      nested call left it. */
  function ReadEntries(entries: seq<Entry>, prefix: string, depth: int, options: map<string, Scalar>): (r: Run)
    requires 0 <= depth <= MaxDepth
    ensures r.error.Some? ==> r.error.value.Depth? && r.error.value.depth == MaxDepth + 1
    decreases entries, 0
  {
    if entries == [] then Run(options, None)
    else
      var e := entries[0];
      match e.value
      case Array(sub) =>
        var r := Read(sub, prefix + e.name + ".", depth + 1, options);
        if r.error.Some? then r else ReadEntries(entries[1..], prefix, depth, r.options)
      case Scalar(s) => ReadEntries(entries[1..], prefix, depth, options[prefix + e.name := s])
      case Other => ReadEntries(entries[1..], prefix, depth, options)
  }

  /** A scalar leaf of an options tree: the names leading to it from the
      root, and its value. */
  datatype Leaf = Leaf(path: seq<string>, value: Scalar)

  /** The scalar leaves of an options tree in depth-first, entry order.
      Values that are neither arrays nor scalars contribute nothing. */
  function Leaves(entries: seq<Entry>): (r: seq<Leaf>)
    ensures forall i :: 0 <= i < |r| ==> |r[i].path| >= 1
  {
    if entries == [] then []
    else
      var e := entries[0];
      var here := match e.value
        case Scalar(s) => [Leaf([e.name], s)]
        case Array(sub) => Under(e.name, Leaves(sub))
        case Other => [];
      here + Leaves(entries[1..])
  }

  /** The leaves of a nested array, seen from the array that holds it under `name`. */
  function Under(name: string, ls: seq<Leaf>): seq<Leaf>
  {
    seq(|ls|, i requires 0 <= i < |ls| => Leaf([name] + ls[i].path, ls[i].value))
  }

  /** The flat option name of a leaf: the prefix, then its path joined with dots. */
  function FlatKey(prefix: string, l: Leaf): string
  {
    prefix + Implode(l.path)
  }

  /** The options array after storing the leaves one after the other, each
      under its flat name, a later one overwriting an earlier one. */
  function Store(options: map<string, Scalar>, prefix: string, ls: seq<Leaf>): map<string, Scalar>
    decreases ls
  {
    if ls == [] then options
    else Store(options[FlatKey(prefix, ls[0]) := ls[0].value], prefix, ls[1..])
  }

  /** The flat names that storing the leaves writes to. */
  function FlatKeys(prefix: string, ls: seq<Leaf>): set<string>
  {
    set l | l in ls :: FlatKey(prefix, l)
  }

  // ---------------------------------------------------------------------
  // Storing leaves

  lemma {:induction false} StoreAppend(options: map<string, Scalar>, prefix: string, a: seq<Leaf>, b: seq<Leaf>)
    ensures Store(options, prefix, a + b) == Store(Store(options, prefix, a), prefix, b)
    decreases a
  {
    if a == [] {
      assert a + b == b;
    } else {
      assert (a + b)[0] == a[0];
      assert (a + b)[1..] == a[1..] + b;
      StoreAppend(options[FlatKey(prefix, a[0]) := a[0].value], prefix, a[1..], b);
    }
  }

  /** Storing the leaves of a nested array under `prefix.name.` is storing
      them, one level up, under `prefix` with `name` in front of each path. */
  lemma {:induction false} StoreUnder(options: map<string, Scalar>, prefix: string, name: string, ls: seq<Leaf>)
    requires forall i :: 0 <= i < |ls| ==> |ls[i].path| >= 1
    ensures Store(options, prefix + name + ".", ls) == Store(options, prefix, Under(name, ls))
    decreases ls
  {
    if ls != [] {
      var u := Under(name, ls);
      ImplodeCons(name, ls[0].path);
      assert FlatKey(prefix + name + ".", ls[0]) == FlatKey(prefix, u[0]);
      assert u[1..] == Under(name, ls[1..]);
      StoreUnder(options[FlatKey(prefix, u[0]) := u[0].value], prefix, name, ls[1..]);
    }
  }

  /** Storing leaves adds exactly their flat names to the array's keys. */
  lemma {:induction false} StoreKeys(options: map<string, Scalar>, prefix: string, ls: seq<Leaf>)
    ensures Store(options, prefix, ls).Keys == options.Keys + FlatKeys(prefix, ls)
    decreases ls
  {
    if ls != [] {
      StoreKeys(options[FlatKey(prefix, ls[0]) := ls[0].value], prefix, ls[1..]);
      assert ls == [ls[0]] + ls[1..];
      assert FlatKeys(prefix, ls) == {FlatKey(prefix, ls[0])} + FlatKeys(prefix, ls[1..]);
    }
  }

  /** A name that no leaf writes keeps its value. */
  lemma {:induction false} StoreUntouched(options: map<string, Scalar>, prefix: string, ls: seq<Leaf>, k: string)
    requires k in options
    requires forall i :: 0 <= i < |ls| ==> FlatKey(prefix, ls[i]) != k
    ensures k in Store(options, prefix, ls) && Store(options, prefix, ls)[k] == options[k]
    decreases ls
  {
    if ls != [] {
      StoreUntouched(options[FlatKey(prefix, ls[0]) := ls[0].value], prefix, ls[1..], k);
    }
  }

  /** The last leaf written under a flat name is the value the name ends up with. */
  lemma {:induction false} StoreLastWins(options: map<string, Scalar>, prefix: string, ls: seq<Leaf>, j: nat)
    requires j < |ls|
    requires forall i :: j < i < |ls| ==> FlatKey(prefix, ls[i]) != FlatKey(prefix, ls[j])
    ensures FlatKey(prefix, ls[j]) in Store(options, prefix, ls)
    ensures Store(options, prefix, ls)[FlatKey(prefix, ls[j])] == ls[j].value
    decreases j
  {
    var next := options[FlatKey(prefix, ls[0]) := ls[0].value];
    if j == 0 {
      StoreUntouched(next, prefix, ls[1..], FlatKey(prefix, ls[0]));
    } else {
      StoreLastWins(next, prefix, ls[1..], j - 1);
    }
  }

  // ---------------------------------------------------------------------
  // readOptions against the leaves

  /** Within the depth bound, a readOptions loop never fails and stores
      exactly the leaves of its array, in order. */
  lemma {:induction false} ReadEntriesWithinBound(entries: seq<Entry>, prefix: string, depth: int, options: map<string, Scalar>)
    requires 0 <= depth && depth + Nesting(entries) <= MaxDepth
    ensures ReadEntries(entries, prefix, depth, options) == Run(Store(options, prefix, Leaves(entries)), None)
    decreases entries, 0
  {
    if entries != [] {
      var e := entries[0];
      var rest := entries[1..];
      match e.value
      case Array(sub) =>
        ReadWithinBound(sub, prefix + e.name + ".", depth + 1, options);
        var mid := Store(options, prefix + e.name + ".", Leaves(sub));
        StoreUnder(options, prefix, e.name, Leaves(sub));
        ReadEntriesWithinBound(rest, prefix, depth, mid);
        StoreAppend(options, prefix, Under(e.name, Leaves(sub)), Leaves(rest));
      case Scalar(s) =>
        ReadEntriesWithinBound(rest, prefix, depth, options[prefix + e.name := s]);
        assert FlatKey(prefix, Leaf([e.name], s)) == prefix + e.name;
        StoreAppend(options, prefix, [Leaf([e.name], s)], Leaves(rest));
      case Other =>
        ReadEntriesWithinBound(rest, prefix, depth, options);
        assert Leaves(entries) == Leaves(rest);
        assert ReadEntries(entries, prefix, depth, options) == ReadEntries(rest, prefix, depth, options);
    }
  }

  /** Within the depth bound, readOptions never fails and stores exactly the
      leaves of its array, starting from an empty array at depth 0. */
  lemma {:induction false} ReadWithinBound(entries: seq<Entry>, prefix: string, depth: int, options: map<string, Scalar>)
    requires 0 <= depth && depth + Nesting(entries) <= MaxDepth
    ensures Read(entries, prefix, depth, options)
         == Run(Store(if depth == 0 then map[] else options, prefix, Leaves(entries)), None)
    decreases entries, 1
  {
    ReadEntriesWithinBound(entries, prefix, depth, if depth == 0 then map[] else options);
  }

  /** Beyond the depth bound, the readOptions loop fails. */
  lemma {:induction false} ReadEntriesBeyondBound(entries: seq<Entry>, prefix: string, depth: int, options: map<string, Scalar>)
    requires 0 <= depth <= MaxDepth < depth + Nesting(entries)
    ensures ReadEntries(entries, prefix, depth, options).error.Some?
    decreases entries, 0
  {
    var e := entries[0];
    var rest := entries[1..];
    match e.value
    case Array(sub) =>
      var r := Read(sub, prefix + e.name + ".", depth + 1, options);
      if r.error.None? {
        if depth < MaxDepth && MaxDepth < depth + 1 + Nesting(sub) {
          ReadEntriesBeyondBound(sub, prefix + e.name + ".", depth + 1, options);
        } else {
          ReadEntriesBeyondBound(rest, prefix, depth, r.options);
        }
      }
    case Scalar(s) =>
      ReadEntriesBeyondBound(rest, prefix, depth, options[prefix + e.name := s]);
    case Other =>
      ReadEntriesBeyondBound(rest, prefix, depth, options);
  }

  /** readOptions called within the range fails exactly when an array lies
      more than 5 levels below the top-level one, and then with the depth
      error at depth 6. */
  lemma DepthErrorExactly(entries: seq<Entry>, prefix: string, depth: int, options: map<string, Scalar>)
    requires 0 <= depth <= MaxDepth
    ensures var r := Read(entries, prefix, depth, options);
      (r.error.Some? <==> MaxDepth < depth + Nesting(entries))
      && (r.error.Some? ==> r.error.value.Depth? && r.error.value.depth == MaxDepth + 1)
  {
    if MaxDepth < depth + Nesting(entries) {
      ReadEntriesBeyondBound(entries, prefix, depth, if depth == 0 then map[] else options);
    } else {
      ReadWithinBound(entries, prefix, depth, options);
    }
  }

  /** A depth outside [0, 5] is refused before the array is reset or any entry read. */
  lemma DepthCheckedFirst(entries: seq<Entry>, prefix: string, depth: int, options: map<string, Scalar>)
    requires depth < 0 || depth > MaxDepth
    ensures Read(entries, prefix, depth, options) == Run(options, Some(Depth(prefix, depth)))
  {
  }

  /** A top-level call does not see what earlier calls left in the array. */
  lemma TopLevelStartsEmpty(entries: seq<Entry>, prefix: string, before1: map<string, Scalar>, before2: map<string, Scalar>)
    ensures Read(entries, prefix, 0, before1) == Read(entries, prefix, 0, before2)
  {
  }

  // ---------------------------------------------------------------------
  // The flattened array of a top-level call

  /** The flat names of a tree within the depth bound are exactly the dotted
      paths of its scalar leaves. */
  lemma FlattenKeySet(entries: seq<Entry>, before: map<string, Scalar>)
    requires Nesting(entries) <= MaxDepth
    ensures var r := Read(entries, "", 0, before);
      r.error == None && r.options.Keys == set l | l in Leaves(entries) :: Implode(l.path)
  {
    ReadWithinBound(entries, "", 0, before);
    StoreKeys(map[], "", Leaves(entries));
    forall l | l in Leaves(entries) ensures FlatKey("", l) == Implode(l.path) {
      assert "" + Implode(l.path) == Implode(l.path);
    }
  }

  /** When two leaves share a dotted path, the one later in iteration order
      wins; a leaf whose path no later leaf repeats keeps its value. */
  lemma FlattenLaterWins(entries: seq<Entry>, before: map<string, Scalar>, j: nat)
    requires Nesting(entries) <= MaxDepth
    requires j < |Leaves(entries)|
    requires forall i :: j < i < |Leaves(entries)| ==> Implode(Leaves(entries)[i].path) != Implode(Leaves(entries)[j].path)
    ensures var r := Read(entries, "", 0, before);
      r.error == None && Implode(Leaves(entries)[j].path) in r.options
      && r.options[Implode(Leaves(entries)[j].path)] == Leaves(entries)[j].value
  {
    var ls := Leaves(entries);
    ReadWithinBound(entries, "", 0, before);
    forall i | 0 <= i < |ls| ensures FlatKey("", ls[i]) == Implode(ls[i].path) {
      assert "" + Implode(ls[i].path) == Implode(ls[i].path);
    }
    StoreLastWins(map[], "", ls, j);
  }

  /** A tree that has no two leaves with one dotted path flattens to exactly
      its leaves: every path is a key, holding its leaf's value. */
  lemma FlattenValues(entries: seq<Entry>, before: map<string, Scalar>)
    requires Nesting(entries) <= MaxDepth
    requires forall i, j :: 0 <= i < j < |Leaves(entries)| ==> Implode(Leaves(entries)[i].path) != Implode(Leaves(entries)[j].path)
    ensures var r := Read(entries, "", 0, before);
      r.error == None
      && forall l :: l in Leaves(entries) ==> Implode(l.path) in r.options && r.options[Implode(l.path)] == l.value
  {
    var ls := Leaves(entries);
    forall l | l in ls
      ensures Implode(l.path) in Read(entries, "", 0, before).options
      ensures Read(entries, "", 0, before).options[Implode(l.path)] == l.value
    {
      var j :| 0 <= j < |ls| && ls[j] == l;
      FlattenLaterWins(entries, before, j);
    }
    ReadWithinBound(entries, "", 0, before);
  }

  /** An entry that is neither an array nor a scalar changes nothing, wherever it sits. */
  lemma {:induction false} OtherSkipped(entries: seq<Entry>, i: nat, name: string, prefix: string, depth: int, options: map<string, Scalar>)
    requires 0 <= depth <= MaxDepth
    requires i <= |entries|
    ensures ReadEntries(entries[..i] + [Entry(name, Other)] + entries[i..], prefix, depth, options)
         == ReadEntries(entries, prefix, depth, options)
    decreases i
  {
    var s := entries[..i] + [Entry(name, Other)] + entries[i..];
    if i == 0 {
      assert s[0] == Entry(name, Other) && s[1..] == entries;
    } else {
      assert s[0] == entries[0];
      assert s[1..] == entries[1..][..i - 1] + [Entry(name, Other)] + entries[1..][i - 1..];
      var e := entries[0];
      match e.value
      case Array(sub) =>
        var r := Read(sub, prefix + e.name + ".", depth + 1, options);
        if r.error.None? {
          OtherSkipped(entries[1..], i - 1, name, prefix, depth, r.options);
        }
      case Scalar(v) =>
        OtherSkipped(entries[1..], i - 1, name, prefix, depth, options[prefix + e.name := v]);
      case Other =>
        OtherSkipped(entries[1..], i - 1, name, prefix, depth, options);
    }
  }
}
