/**
 * The `Jaxon\Config\Config` class: the static options array, the recursive
 * reader that fills it, and the entry point that finds the section to read
 * and hands the result to the library's options object.
 */
module JaxonConfig {
  import opened ConfigValues
  import opened DottedKeys
  import opened Flatten
  import opened Section

  /** The options object that `jaxon()` returns, seen only through what it
      is handed: each flat array it received, oldest first. */
  class OptionsSink {
    var received: seq<map<string, Scalar>>

    constructor ()
      ensures received == []
    {
      received := [];
    }

    method SetOptions(options: map<string, Scalar>)
      modifies this
      ensures received == old(received) + [options]
    {
      received := received + [options];
    }
  }

  /** What a setOptions call hands to the options object, or the error it
      throws instead. It depends on the input and the key string alone. */
  function Delivered(input: seq<Entry>, keys: string): Result<map<string, Scalar>, ConfigError>
  {
    match Locate(input, keys)
    case Err(e) => Err(e)
    case Ok(section) =>
      var r := Read(section, "", 0, map[]);
      if r.error.Some? then Err(r.error.value) else Ok(r.options)
  }

  /** The options of a section within the depth bound are delivered, and
      they are its leaves stored under their dotted paths. */
  lemma DeliveredSection(input: seq<Entry>, keys: string, section: seq<Entry>)
    requires Locate(input, keys) == Ok(section)
    requires Nesting(section) <= MaxDepth
    ensures Delivered(input, keys) == Ok(Store(map[], "", Leaves(section)))
  {
    ReadWithinBound(section, "", 0, map[]);
  }

  /** setOptions delivers nothing exactly when the key string names no
      section, or the section nests arrays more than 5 levels deep. */
  lemma DeliveredFails(input: seq<Entry>, keys: string)
    ensures Delivered(input, keys).Err? <==>
      (Locate(input, keys).Err? || MaxDepth < Nesting(Locate(input, keys).value))
    ensures Locate(input, keys).Err? ==> Delivered(input, keys) == Err(Missing(keys))
  {
    if Locate(input, keys).Ok? {
      DepthErrorExactly(Locate(input, keys).value, "", 0, map[]);
    }
  }

  class Config {
    /** `self::$aOptions`: the options read by the last call. */
    var options: map<string, Scalar>

    constructor ()
      ensures options == map[]
    {
      options := map[];
    }

    /** `readOptions($aOptions, $sPrefix, $nDepth)`: checks the depth, empties
        the options at depth 0, then walks the entries in order. The error it
        returns stands for the exception, and the options stay as they were
        when it was thrown. */
    method ReadOptions(entries: seq<Entry>, prefix: string, depth: int) returns (error: Option<ConfigError>)
      modifies this
      ensures Run(options, error) == Read(entries, prefix, depth, old(options))
      decreases entries
    {
      if depth < 0 || depth > MaxDepth {
        return Some(Depth(prefix, depth));
      }
      if depth == 0 {
        options := map[];
      }
      assert entries[0..] == entries;
      var i := 0;
      while i < |entries|
        invariant 0 <= i <= |entries|
        invariant ReadEntries(entries[i..], prefix, depth, options) == Read(entries, prefix, depth, old(options))
      {
        var e := entries[i];
        assert entries[i..][0] == e && entries[i..][1..] == entries[i + 1..];
        match e.value {
          case Array(sub) =>
            var nested := ReadOptions(sub, prefix + e.name + ".", depth + 1);
            if nested.Some? {
              return nested;
            }
          case Scalar(s) =>
            options := options[prefix + e.name := s];
          case Other =>
        }
        i := i + 1;
      }
      return None;
    }

    /** `setOptions($aOptions, $sKeys)`: finds the section named by the key
        string, reads it from depth 0, and only when both succeed hands the
        options read to `sink`. */
    method SetOptions(input: seq<Entry>, keys: string, sink: OptionsSink) returns (error: Option<ConfigError>)
      modifies this, sink
      ensures match Locate(input, keys)
        case Err(e) => error == Some(e) && options == old(options)
        case Ok(section) => Run(options, error) == Read(section, "", 0, old(options))
      ensures match Delivered(input, keys)
        case Ok(flat) => error == None && sink.received == old(sink.received) + [flat]
        case Err(e) => error == Some(e) && sink.received == old(sink.received)
    {
      var segs := Explode(keys);
      var section := input;
      assert segs[0..] == segs;
      for i := 0 to |segs|
        invariant Descend(section, segs[i..], keys) == Locate(input, keys)
      {
        assert segs[i..][0] == segs[i] && segs[i..][1..] == segs[i + 1..];
        if Truthy(segs[i]) {
          var found := Lookup(section, segs[i]);
          if !(found.Some? && found.value.Array?) {
            return Some(Missing(keys));
          }
          section := found.value.entries;
        }
      }
      TopLevelStartsEmpty(section, "", old(options), map[]);
      error := ReadOptions(section, "", 0);
      if error.None? {
        sink.SetOptions(options);
      }
    }
  }

  /** Two setOptions calls with the same arguments end the same way and,
      when they succeed, hand the options object the same flat array: a
      call does not accumulate what an earlier one read. */
  method SetOptionsTwice(config: Config, sink: OptionsSink, input: seq<Entry>, keys: string)
      returns (first: Option<ConfigError>, second: Option<ConfigError>)
    modifies config, sink
    ensures first == second
    ensures first.None? ==>
      |sink.received| == |old(sink.received)| + 2 && sink.received[|sink.received| - 1] == sink.received[|sink.received| - 2]
    ensures first.Some? ==> sink.received == old(sink.received)
  {
    first := config.SetOptions(input, keys, sink);
    second := config.SetOptions(input, keys, sink);
  }
}
