/**
 * How `Config::setOptions` finds the section of its input named by a dotted
 * key string: explode the string on dots, skip the falsy segments, and step
 * into the array under each remaining segment.
 */
module Section {
  import opened ConfigValues
  import opened DottedKeys

  /** PHP's truthiness of a string: every string except "" and "0". */
  predicate Truthy(seg: string)
  {
    seg != "" && seg != "0"
  }

  /** `array_key_exists($key, $a)` followed by `$a[$key]`: the value of the
      first entry named `key`, if there is one. */
  function Lookup(entries: seq<Entry>, key: string): (r: Option<Value>)
    ensures r.None? <==> forall i :: 0 <= i < |entries| ==> entries[i].name != key
    ensures r.Some? ==> exists i :: 0 <= i < |entries| && entries[i] == Entry(key, r.value)
                                   && forall k :: 0 <= k < i ==> entries[k].name != key
  {
    if entries == [] then None
    else if entries[0].name == key then Some(entries[0].value)
    else
      var r := Lookup(entries[1..], key);
      if r.Some? then
        ghost var i :| 0 <= i < |entries[1..]| && entries[1..][i] == Entry(key, r.value)
                       && forall k :: 0 <= k < i ==> entries[1..][k].name != key;
        assert entries[i + 1] == Entry(key, r.value);
        r
      else r
  }

  /** The `foreach` of setOptions over the exploded segments, from the array
      `entries`: a falsy segment is skipped; any other one must name an array,
      or the lookup fails with the whole key string. */
  function Descend(entries: seq<Entry>, segs: seq<string>, keys: string): (r: Result<seq<Entry>, ConfigError>)
    ensures r.Err? ==> r.error == Missing(keys)
  {
    if segs == [] then Ok(entries)
    else if !Truthy(segs[0]) then Descend(entries, segs[1..], keys)
    else
      match Lookup(entries, segs[0])
      case Some(Array(sub)) => Descend(sub, segs[1..], keys)
      case _ => Err(Missing(keys))
  }

  /** The section of `input` that setOptions flattens for the key string `keys`. */
  function Locate(input: seq<Entry>, keys: string): Result<seq<Entry>, ConfigError>
  {
    Descend(input, Explode(keys), keys)
  }

  /** Reference: the array reached by stepping into every name of `path` in turn. */
  function SectionAt(entries: seq<Entry>, path: seq<string>): Option<seq<Entry>>
  {
    if path == [] then Some(entries)
    else
      match Lookup(entries, path[0])
      case Some(Array(sub)) => SectionAt(sub, path[1..])
      case _ => None
  }

  /** The truthy segments, in order. */
  function TruthySegments(segs: seq<string>): (r: seq<string>)
    ensures forall i :: 0 <= i < |r| ==> Truthy(r[i])
  {
    if segs == [] then []
    else if Truthy(segs[0]) then [segs[0]] + TruthySegments(segs[1..])
    else TruthySegments(segs[1..])
  }

  /** The section a key string selects is the one its truthy segments lead
      to; when they lead nowhere, the lookup fails with the key string. */
  function AsLookup(found: Option<seq<Entry>>, keys: string): Result<seq<Entry>, ConfigError>
  {
    match found
    case Some(s) => Ok(s)
    case None => Err(Missing(keys))
  }

  lemma {:induction false} DescendFollowsTruthySegments(entries: seq<Entry>, segs: seq<string>, keys: string)
    ensures Descend(entries, segs, keys) == AsLookup(SectionAt(entries, TruthySegments(segs)), keys)
  {
    if segs != [] {
      if !Truthy(segs[0]) {
        DescendFollowsTruthySegments(entries, segs[1..], keys);
      } else {
        var t := TruthySegments(segs);
        assert t[0] == segs[0] && t[1..] == TruthySegments(segs[1..]);
        match Lookup(entries, segs[0])
        case Some(Array(sub)) =>
          DescendFollowsTruthySegments(sub, segs[1..], keys);
        case _ =>
      }
    }
  }

  /** The empty key string selects the whole input. */
  lemma LocateWhole(input: seq<Entry>)
    ensures Locate(input, "") == Ok(input)
  {
    assert Explode("") == [""];
    assert !Truthy("");
    assert Descend(input, [""], "") == Descend(input, [], "");
  }

  /** A key string made of truthy, dot-free names selects the array those
      names lead to, or fails with that key string when they lead nowhere. */
  lemma LocatePath(input: seq<Entry>, path: seq<string>)
    requires |path| >= 1
    requires forall i :: 0 <= i < |path| ==> '.' !in path[i] && Truthy(path[i])
    ensures Locate(input, Implode(path)) == AsLookup(SectionAt(input, path), Implode(path))
  {
    ExplodeImplode(path);
    DescendFollowsTruthySegments(input, path, Implode(path));
    AllTruthyKept(path);
  }

  lemma {:induction false} AllTruthyKept(segs: seq<string>)
    requires forall i :: 0 <= i < |segs| ==> Truthy(segs[i])
    ensures TruthySegments(segs) == segs
  {
    if segs != [] {
      AllTruthyKept(segs[1..]);
    }
  }
}
