/**
 * Dotted option keys: PHP's `explode('.', $s)`, which splits the key string
 * of setOptions into segments, and its inverse `implode('.', $segs)`, which
 * is how readOptions joins a leaf's path into a flat option name.
 */
module DottedKeys {

  /** `explode('.', s)`: the pieces of `s` between dots, always at least one
      (the empty string explodes to `[""]`). */
  function Explode(s: string): (r: seq<string>)
    ensures |r| >= 1
    ensures forall i :: 0 <= i < |r| ==> '.' !in r[i]
  {
    if s == [] then [""]
    else
      var rest := Explode(s[1..]);
      if s[0] == '.' then [""] + rest
      else [[s[0]] + rest[0]] + rest[1..]
  }

  /** `implode('.', segs)`: the segments joined with a dot between each two. */
  function Implode(segs: seq<string>): string
  {
    if |segs| == 0 then ""
    else if |segs| == 1 then segs[0]
    else segs[0] + "." + Implode(segs[1..])
  }

  /** Exploding and imploding again gives back the original key string. */
  lemma {:induction false} ImplodeExplode(s: string)
    ensures Implode(Explode(s)) == s
  {
    if s != [] {
      var rest := Explode(s[1..]);
      ImplodeExplode(s[1..]);
      if s[0] == '.' {
        assert Explode(s) == [""] + rest;
        assert Implode(Explode(s)) == "" + "." + Implode(rest);
      } else {
        assert Explode(s) == [[s[0]] + rest[0]] + rest[1..];
        if |rest| == 1 {
          assert Implode(Explode(s)) == [s[0]] + rest[0];
        } else {
          assert Implode(rest) == rest[0] + "." + Implode(rest[1..]);
          assert Implode(Explode(s)) == [s[0]] + rest[0] + "." + Implode(rest[1..]);
        }
        assert s == [s[0]] + s[1..];
      }
    }
  }

  /** A dot-free string explodes to itself alone. */
  lemma {:induction false} ExplodeDotFree(a: string)
    requires '.' !in a
    ensures Explode(a) == [a]
  {
    if a != [] {
      ExplodeDotFree(a[1..]);
      assert a == [a[0]] + a[1..];
    }
  }

  /** A dot-free head followed by a dot explodes to that head, then the rest. */
  lemma {:induction false} ExplodeHead(a: string, b: string)
    requires '.' !in a
    ensures Explode(a + "." + b) == [a] + Explode(b)
  {
    if a == [] {
      assert a + "." + b == ['.'] + b;
      assert (['.'] + b)[1..] == b;
    } else {
      var s := a + "." + b;
      assert s[0] == a[0];
      assert s[1..] == a[1..] + "." + b;
      ExplodeHead(a[1..], b);
      assert a == [a[0]] + a[1..];
    }
  }

  /** For dot-free segments, imploding and exploding again gives them back. */
  lemma {:induction false} ExplodeImplode(segs: seq<string>)
    requires |segs| >= 1
    requires forall i :: 0 <= i < |segs| ==> '.' !in segs[i]
    ensures Explode(Implode(segs)) == segs
  {
    if |segs| == 1 {
      ExplodeDotFree(segs[0]);
    } else {
      ExplodeImplode(segs[1..]);
      ExplodeHead(segs[0], Implode(segs[1..]));
      assert segs == [segs[0]] + segs[1..];
    }
  }

  /** Putting one more segment in front of a non-empty path puts it and a
      dot in front of the joined key. */
  lemma ImplodeCons(name: string, path: seq<string>)
    requires |path| >= 1
    ensures Implode([name] + path) == name + "." + Implode(path)
  {
    assert ([name] + path)[1..] == path;
  }
}
