/**
 * The data that the Jaxon config reader works on.
 *
 * A PHP options array is an ordered list of (name, value) entries; a value is
 * a scalar that the reader stores, a nested array that it descends into, or
 * anything else (null, an object, a resource), which it ignores.
 */
module ConfigValues {

  datatype Option<+T> = None | Some(value: T)

  datatype Result<+T, +E> = Ok(value: T) | Err(error: E)

  /** A value accepted by `is_string`, `is_numeric` or `is_bool`.
      Numbers are opaque payloads: nothing here computes with them. */
  datatype Scalar =
    | Str(s: string)
    | Int(i: int)
    | Float(literal: string)
    | Bool(b: bool)

  /** A value found in an options array, classified the way readOptions
      classifies it (`is_array` first, then the three scalar tests). */
  datatype Value =
    | Scalar(scalar: Scalar)
    | Array(entries: seq<Entry>)
    | Other

  /** One `$sName => $xOption` pair, in the array's iteration order. */
  datatype Entry = Entry(name: string, value: Value)

  /** The two ways `\Jaxon\Exception\Config\Data` is raised by the reader:
      `'depth'` with the prefix and depth, `'missing'` with the key string. */
  datatype ConfigError =
    | Depth(prefix: string, depth: int)
    | Missing(keys: string)

  /** How many arrays are nested below the given one: 0 when it holds no
      array, otherwise one more than the deepest array it holds. */
  function Nesting(entries: seq<Entry>): nat
  {
    if entries == [] then 0
    else
      var here := match entries[0].value
        case Array(sub) => 1 + Nesting(sub)
        case _ => 0;
      Max(here, Nesting(entries[1..]))
  }

  function Max(a: nat, b: nat): nat
  {
    if a < b then b else a
  }
}
