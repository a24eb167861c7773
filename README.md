# Jaxon config reader, modelled in Dafny

This project models the `Jaxon\Config\Config` class of jaxon-core: the
reader that takes a nested PHP options array, optionally picks out a
section of it named by a dotted key string such as `"jaxon.core"`, flattens
that section into a single array keyed by dotted option names
(`"core.debug"`, `"js.app.export"`), and hands the flat array to the
library's options object.

- `values.dfy` (`ConfigValues`): an options array as an ordered sequence of
  `Entry(name, value)`; a value is a `Scalar` (string, integer, float or
  boolean), a nested `Array`, or `Other` (null, objects). The two exception
  kinds are `Depth(prefix, depth)` and `Missing(keys)`. `Nesting` counts the
  arrays nested below a given one.
- `dotted_keys.dfy` (`DottedKeys`): `explode('.', …)` and `implode('.', …)`
  with their round trips.
- `flatten.dfy` (`Flatten`): `Read` and `ReadEntries` say what one
  `readOptions` call leaves in the static options array, and which exception
  it throws. `Leaves` and `Store` give an independent description of the
  result: the scalar leaves with their paths from the root, stored one after
  the other under their dotted paths. The lemmas connect the two. They
  cover the depth bound, the reset at depth 0, skipped values, the key set,
  and which leaf wins when two share a dotted path.
- `section.dfy` (`Section`): the section lookup of `setOptions`. It uses
  PHP truthiness of segments, so `""` and `"0"` are skipped, and
  `array_key_exists` plus `is_array` at each step. `SectionAt` is the
  reference lookup that follows a path of names.
- `config.dfy` (`JaxonConfig`): the class itself. `Config.options` stands
  for the static `$aOptions`. `Config.ReadOptions` is the recursive method
  with its `foreach` loop. `Config.SetOptions` is the method with its loop
  over key segments. Both are proved against the functions above.
  `OptionsSink` stands for the object returned by `jaxon()`. It records
  every flat array it receives.
- `examples_config.dfy` (`ConfigExamples`): concrete trees and key strings,
  and both sides of the depth bound.

Where the design description of the reader and its code differ, the model
follows the code:
- Segment skipping uses PHP truthiness (`if(($sKey))`). So `"0"` is
  skipped as well as the empty segment.
- When the depth error is thrown part-way through a read, the static
  array keeps what was stored before the throw. Only the hand-off to the
  options object is all-or-nothing. `Config.SetOptions` states both.

## Model

| member | source | states |
|---|---|---|
| DottedKeys.Explode | src/Config/Config.php:71 | exploding a key string gives at least one segment, and no segment holds a dot |
| DottedKeys.ImplodeExplode | src/Config/Config.php:71 | joining the exploded segments with dots gives back the key string |
| DottedKeys.ExplodeImplode | src/Config/Config.php:71 | dot-free segments joined with dots explode back to the same segments |
| Flatten.Read | src/Config/Config.php:32-58 | a readOptions call can only fail with the depth error: at the call's own depth when that is outside [0, 5], otherwise at depth 6 |
| Flatten.ReadEntries | src/Config/Config.php:45-57 | the entry loop at a depth in [0, 5] can only fail with the depth error at depth 6 |
| Flatten.Leaves | src/Config/Config.php:45-57 | every scalar leaf has a non-empty path of names from the root |
| Flatten.StoreAppend | src/Config/Config.php:45-57 | storing two runs of leaves one after the other is storing their concatenation |
| Flatten.StoreUnder | src/Config/Config.php:50 | storing a nested array's leaves under prefix `prefix.name.` is storing them under `prefix` with `name` prepended to each path |
| Flatten.StoreKeys | src/Config/Config.php:55 | storing leaves adds exactly their flat names to the array's keys |
| Flatten.StoreUntouched | src/Config/Config.php:55 | a name that no leaf writes keeps its earlier value |
| Flatten.StoreLastWins | src/Config/Config.php:55 | a name ends up holding the value of the last leaf written under it |
| Flatten.ReadEntriesWithinBound | src/Config/Config.php:45-57 | within the depth bound the entry loop never fails, and it stores exactly the array's leaves in iteration order |
| Flatten.ReadWithinBound | src/Config/Config.php:37-57 | within the depth bound readOptions never fails; it stores exactly the leaves, starting from an empty array at depth 0 |
| Flatten.ReadEntriesBeyondBound | src/Config/Config.php:37-50 | an entry loop whose arrays nest past depth 5 fails |
| Flatten.DepthErrorExactly | src/Config/Config.php:37-50 | a call at depth d in [0, 5] fails exactly when d plus the nesting exceeds 5, and then with the error at depth 6, even if the sixth-level array is empty |
| Flatten.DepthCheckedFirst | src/Config/Config.php:37-40 | a depth outside [0, 5] throws the depth error with that prefix and depth, leaving the static array untouched |
| Flatten.TopLevelStartsEmpty | src/Config/Config.php:41-44 | a depth-0 call ends the same whatever the static array held before |
| Flatten.FlattenKeySet | src/Config/Config.php:45-56 | for a tree within the bound, the flat keys are exactly the dot-joined paths of its scalar leaves |
| Flatten.FlattenLaterWins | src/Config/Config.php:55 | when several leaves share a dotted path, the key holds the value of the last of them in iteration order |
| Flatten.FlattenValues | src/Config/Config.php:45-56 | for a tree within the bound with no colliding paths, each leaf's dotted path holds that leaf's value |
| Flatten.OtherSkipped | src/Config/Config.php:47-57 | inserting a value that is neither an array nor a scalar anywhere in an array changes neither the result nor the error |
| Section.Lookup | src/Config/Config.php:76 | a key is found exactly when some entry has that name, and then the value is that of the first such entry |
| Section.Descend | src/Config/Config.php:72-82 | the segment loop can only fail with the missing error carrying the whole original key string |
| Section.TruthySegments | src/Config/Config.php:74 | only truthy segments (neither "" nor "0") are kept |
| Section.DescendFollowsTruthySegments | src/Config/Config.php:72-82 | the segment loop reaches the array that the truthy segments lead to, and fails with the key string when they lead nowhere |
| Section.LocateWhole | src/Config/Config.php:71-82 | the empty key string selects the whole input |
| Section.LocatePath | src/Config/Config.php:71-82 | a key string of truthy dot-free names selects the array those names lead to, or fails with that key string |
| JaxonConfig.DeliveredSection | src/Config/Config.php:68-88 | a located section within the bound is delivered as its leaves stored under their dotted paths |
| JaxonConfig.DeliveredFails | src/Config/Config.php:68-88 | nothing is delivered exactly when the key string names no array section or the section nests too deep; a failed lookup carries the key string |
| JaxonConfig.OptionsSink.SetOptions | src/Config/Config.php:86-87 | the options object records exactly the flat array it was handed |
| JaxonConfig.Config.constructor | src/Config/Config.php:21 | the static options array starts out empty |
| JaxonConfig.Config.ReadOptions | src/Config/Config.php:32-58 | the recursive method leaves the options and the exception as `Read` says, including the partial array left by a throw |
| JaxonConfig.Config.SetOptions | src/Config/Config.php:68-88 | a failed lookup leaves the options untouched; otherwise the section is read from depth 0; the options object receives the flat array exactly when both steps succeed, and nothing otherwise |
| JaxonConfig.SetOptionsTwice | src/Config/Config.php:68-88 | two calls with the same arguments end the same way and hand over the same flat array |
| ConfigExamples.FiveLevelsAreRead | src/Config/Config.php:37 | five arrays nested below the top level are read without error |
| ConfigExamples.SixthLevelFails | src/Config/Config.php:37-50 | a sixth nested array, even an empty one, fails with the depth error at depth 6 |
| ConfigExamples.AppConfigFlattens | src/Config/Config.php:45-56 | `["app" => ["name" => "demo", "debug" => true], "port" => 8080]` flattens to `app.name`, `app.debug`, `port` |
| ConfigExamples.NullIsSkipped | src/Config/Config.php:47-57 | `["a" => null, "b" => 3]` flattens to `["b" => 3]` |
| ConfigExamples.LaterLeafWins | src/Config/Config.php:55 | `["a.b" => 1, "a" => ["b" => 2]]` flattens to `["a.b" => 2]` |
| ConfigExamples.SectionIsSelected | src/Config/Config.php:71-84 | key string `a.b` selects the innermost array of `["a" => ["b" => ["x" => 1, "y" => 2]]]`, which is what gets delivered |
| ConfigExamples.MissingSectionFails | src/Config/Config.php:76-79 | key strings naming a missing key or a scalar fail with the missing error carrying the key string |
| ConfigExamples.FalsySegmentsSkipped | src/Config/Config.php:74 | `0.a..b` selects the same section as `a.b` |

## Left out

- The `jaxon()` global accessor and `$jaxon->setOptions` (lines 86-87) call code that is not part of this model. That code is an `OptionsSink` object, passed to `Config.SetOptions` as a parameter, which only records what it receives.
- The static `self::$aOptions` is the `options` field of one `Config` object. Its initial `null` value is the empty map.
- The `(string)` and `intval` casts (lines 34-35, 71) are left out: the prefix and key string are strings and the depth is an integer already.
- PHP turns numeric-string array keys into integers. This is left out: names are strings, and `$sPrefix . $sName` is plain string concatenation.
- The finer points of `is_numeric` are left out. Numeric strings are strings already, and floats are opaque payloads with no arithmetic.
- Section.Lookup: PHP array keys are unique. The model's entry sequence can repeat a name, and then the lookup takes the first entry with that name.
- The order of keys in the flat array is left out: it is a map. The options object's view of that order is not modelled. Overwriting on a repeated flat name is modelled.
- The construction of the `\Jaxon\Exception\Config\Data` exception is left out. Throwing it is an early return of a `ConfigError` value.
- Concurrency is not modelled. The code is single-threaded.
