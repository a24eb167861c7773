/**
 * Worked cases of the Jaxon config reader: concrete option trees and what
 * reading them gives, and the two sides of the depth bound.
 */
module ConfigExamples {
  import opened ConfigValues
  import opened DottedKeys
  import opened Flatten
  import opened Section
  import opened JaxonConfig

  /** `n` arrays nested one inside the other, each under the name "a", the
      innermost one empty. */
  function Chain(n: nat): seq<Entry>
  {
    if n == 0 then [] else [Entry("a", Array(Chain(n - 1)))]
  }

  lemma {:induction false} ChainShape(n: nat)
    ensures Nesting(Chain(n)) == n
    ensures Leaves(Chain(n)) == []
  {
    if n > 0 {
      ChainShape(n - 1);
      assert Chain(n)[1..] == [];
    }
  }

  /** Five arrays below the top level are read without error (to nothing,
      as the innermost one is empty). */
  lemma FiveLevelsAreRead(before: map<string, Scalar>)
    ensures Read(Chain(5), "", 0, before) == Run(map[], None)
  {
    ChainShape(5);
    ReadWithinBound(Chain(5), "", 0, before);
  }

  /** A sixth array fails with the depth error, although it is empty. */
  lemma SixthLevelFails(before: map<string, Scalar>)
    ensures Read(Chain(6), "", 0, before).error.Some?
    ensures Read(Chain(6), "", 0, before).error.value.depth == 6
  {
    ChainShape(6);
    DepthErrorExactly(Chain(6), "", 0, before);
  }

  /** `["app" => ["name" => "demo", "debug" => true], "port" => 8080]`. */
  function AppConfig(): seq<Entry>
  {
    [ Entry("app", Array([Entry("name", Scalar(Str("demo"))), Entry("debug", Scalar(Bool(true)))])),
      Entry("port", Scalar(Int(8080))) ]
  }

  lemma AppConfigFlattens()
    ensures Delivered(AppConfig(), "")
         == Ok(map["app.name" := Str("demo"), "app.debug" := Bool(true), "port" := Int(8080)])
  {
    var app := [Entry("name", Scalar(Str("demo"))), Entry("debug", Scalar(Bool(true)))];
    assert Nesting(app) == 0;
    assert Nesting(AppConfig()) == 1;
    assert Leaves(app) == [Leaf(["name"], Str("demo")), Leaf(["debug"], Bool(true))];
    assert AppConfig()[1..] == [Entry("port", Scalar(Int(8080)))];
    assert Leaves(AppConfig()[1..]) == [Leaf(["port"], Int(8080))];
    assert ["app"] + ["name"] == ["app", "name"] && ["app"] + ["debug"] == ["app", "debug"];
    assert Under("app", Leaves(app)) == [Leaf(["app", "name"], Str("demo")), Leaf(["app", "debug"], Bool(true))];
    var ls := Leaves(AppConfig());
    assert ls == [Leaf(["app", "name"], Str("demo")), Leaf(["app", "debug"], Bool(true)), Leaf(["port"], Int(8080))];
    assert FlatKey("", ls[0]) == "app.name";
    assert FlatKey("", ls[1]) == "app.debug";
    assert FlatKey("", ls[2]) == "port";
    LocateWhole(AppConfig());
    DeliveredSection(AppConfig(), "", AppConfig());
    assert Store(map[], "", ls) == Store(map["app.name" := Str("demo")], "", ls[1..]);
  }

  /** `["a" => null, "b" => 3]`: the null is dropped without an error. */
  lemma NullIsSkipped()
    ensures Delivered([Entry("a", Other), Entry("b", Scalar(Int(3)))], "") == Ok(map["b" := Int(3)])
  {
    var input := [Entry("a", Other), Entry("b", Scalar(Int(3)))];
    assert Nesting(input) == 0;
    assert Leaves(input) == [Leaf(["b"], Int(3))];
    assert FlatKey("", Leaf(["b"], Int(3))) == "b";
    LocateWhole(input);
    DeliveredSection(input, "", input);
  }

  /** `["a.b" => 1, "a" => ["b" => 2]]`: both leaves are named "a.b"; the later one wins. */
  lemma LaterLeafWins()
    ensures Delivered([Entry("a.b", Scalar(Int(1))), Entry("a", Array([Entry("b", Scalar(Int(2)))]))], "")
         == Ok(map["a.b" := Int(2)])
  {
    var input := [Entry("a.b", Scalar(Int(1))), Entry("a", Array([Entry("b", Scalar(Int(2)))]))];
    assert Nesting([Entry("b", Scalar(Int(2)))]) == 0;
    assert Nesting(input) == 1;
    assert Leaves([Entry("b", Scalar(Int(2)))]) == [Leaf(["b"], Int(2))];
    assert input[1..] == [Entry("a", Array([Entry("b", Scalar(Int(2)))]))];
    assert ["a"] + ["b"] == ["a", "b"];
    assert Under("a", [Leaf(["b"], Int(2))]) == [Leaf(["a", "b"], Int(2))];
    assert Leaves(input[1..]) == [Leaf(["a", "b"], Int(2))];
    var ls := Leaves(input);
    assert ls == [Leaf(["a.b"], Int(1)), Leaf(["a", "b"], Int(2))];
    assert FlatKey("", ls[0]) == "a.b";
    assert FlatKey("", ls[1]) == "a.b";
    LocateWhole(input);
    DeliveredSection(input, "", input);
    assert Store(map[], "", ls) == Store(map["a.b" := Int(1)], "", ls[1..]);
    assert ls[1..] == [Leaf(["a", "b"], Int(2))];
    assert Store(map["a.b" := Int(1)], "", ls[1..]) == map["a.b" := Int(1)]["a.b" := Int(2)];
    assert map["a.b" := Int(1)]["a.b" := Int(2)] == map["a.b" := Int(2)];
  }

  function Nested(): seq<Entry>
  {
    [Entry("a", Array([Entry("b", Array([Entry("x", Scalar(Int(1))), Entry("y", Scalar(Int(2)))]))]))]
  }

  /** The key string "a.b" selects `["x" => 1, "y" => 2]`, which is what gets delivered. */
  lemma SectionIsSelected()
    ensures Locate(Nested(), "a.b") == Ok([Entry("x", Scalar(Int(1))), Entry("y", Scalar(Int(2)))])
    ensures Delivered(Nested(), "a.b") == Ok(map["x" := Int(1), "y" := Int(2)])
  {
    var section := [Entry("x", Scalar(Int(1))), Entry("y", Scalar(Int(2)))];
    LocatePath(Nested(), ["a", "b"]);
    assert Implode(["a", "b"]) == "a.b";
    assert SectionAt(Nested(), ["a", "b"]) == Some(section) by {
      assert Lookup(Nested(), "a") == Some(Array([Entry("b", Array(section))]));
      assert ["a", "b"][1..] == ["b"];
    }
    assert Nesting(section) == 0;
    var ls := Leaves(section);
    assert ls == [Leaf(["x"], Int(1)), Leaf(["y"], Int(2))];
    assert FlatKey("", ls[0]) == "x";
    assert FlatKey("", ls[1]) == "y";
    DeliveredSection(Nested(), "a.b", section);
    assert Store(map[], "", ls) == Store(map["x" := Int(1)], "", ls[1..]);
  }

  /** With `["a" => ["b" => 1]]` the key string "a.c" names nothing, and
      "a.b" names a scalar rather than an array: both fail with the key string. */
  lemma MissingSectionFails()
    ensures Delivered([Entry("a", Array([Entry("b", Scalar(Int(1)))]))], "a.c") == Err(Missing("a.c"))
    ensures Delivered([Entry("a", Array([Entry("b", Scalar(Int(1)))]))], "a.b") == Err(Missing("a.b"))
  {
    assert Explode("a.c") == ["a", "c"] by {
      ExplodeImplode(["a", "c"]);
      assert Implode(["a", "c"]) == "a.c";
    }
    assert Explode("a.b") == ["a", "b"] by {
      ExplodeImplode(["a", "b"]);
      assert Implode(["a", "b"]) == "a.b";
    }
  }

  lemma ExplodeFalsyKeys()
    ensures Explode("0.a..b") == ["0", "a", "", "b"]
  {
    ExplodeDotFree("b");
    ExplodeHead("", "b");
    ExplodeHead("a", ".b");
    ExplodeHead("0", "a..b");
    assert "" + "." + "b" == ".b";
    assert "a" + "." + ".b" == "a..b";
    assert "0" + "." + "a..b" == "0.a..b";
  }

  lemma KeepTruthy()
    ensures TruthySegments(["0", "a", "", "b"]) == ["a", "b"]
  {
    var segs := ["0", "a", "", "b"];
    assert segs[1..] == ["a", "", "b"];
    assert segs[1..][1..] == ["", "b"];
    assert segs[1..][1..][1..] == ["b"];
  }

  /** The segment "0" is falsy in PHP and is skipped like an empty one. */
  lemma FalsySegmentsSkipped()
    ensures Locate(Nested(), "0.a..b") == Locate(Nested(), "a.b")
  {
    ExplodeFalsyKeys();
    KeepTruthy();
    DescendFollowsTruthySegments(Nested(), ["0", "a", "", "b"], "0.a..b");
    LocatePath(Nested(), ["a", "b"]);
    assert Implode(["a", "b"]) == "a.b";
  }
}
