/**
 * `processData`: the list of temperature attributes (one per year) read from
 * the property names of the first feature of the dataset.
 */
module Attributes {
  import opened Wrappers
  import opened Values
  import opened Strings

  /** Why the attribute list cannot be built. */
  datatype LoadError =
    /** `data.features[0]` is `undefined`, so reading its `properties` throws. */
    NoFeatures

  /** The test `attribute.indexOf("Temp") > -1`. */
  predicate IsTempAttribute(name: string)
  {
    IndexOf(name, "Temp") > -1
  }

  /** The names of `names` that pass the test, in order (the specification of the push loop). */
  function TempAttributes(names: seq<string>): seq<string>
  {
    if names == [] then []
    else
      var last := names[|names| - 1];
      TempAttributes(names[..|names| - 1]) + (if IsTempAttribute(last) then [last] else [])
  }

  /** The attribute test is "the name contains `Temp`". */
  lemma IsTempAttributeContains(name: string)
    ensures IsTempAttribute(name) <==> Contains(name, "Temp")
  {
    IndexOfContains(name, "Temp");
  }

  /** Filtering distributes over concatenation, so it keeps the order of the names. */
  lemma {:induction false} TempAttributesAppend(a: seq<string>, b: seq<string>)
    ensures TempAttributes(a + b) == TempAttributes(a) + TempAttributes(b)
    decreases |b|
  {
    if b != [] {
      var b' := b[..|b| - 1];
      assert (a + b)[..|a + b| - 1] == a + b';
      TempAttributesAppend(a, b');
    } else {
      assert a + b == a;
    }
  }

  /**
   * Every name is kept as often as it occurs when it contains `Temp`, and
   * never otherwise: nothing qualifying is dropped and nothing else gets in.
   */
  lemma {:induction false} TempAttributesCount(names: seq<string>, x: string)
    ensures multiset(TempAttributes(names))[x] ==
            if Contains(x, "Temp") then multiset(names)[x] else 0
    decreases |names|
  {
    IsTempAttributeContains(x);
    if names != [] {
      var init, last := names[..|names| - 1], names[|names| - 1];
      assert names == init + [last];
      IsTempAttributeContains(last);
      TempAttributesCount(init, x);
    }
  }

  /** A name is in the attribute list exactly when it is a property name containing `Temp`. */
  lemma TempAttributesMembers(names: seq<string>, x: string)
    ensures x in TempAttributes(names) <==> x in names && Contains(x, "Temp")
  {
    TempAttributesCount(names, x);
    assert x in TempAttributes(names) <==> multiset(TempAttributes(names))[x] > 0;
    assert x in names <==> multiset(names)[x] > 0;
  }

  /** Filtering names that are pairwise different gives names that are pairwise different. */
  lemma {:induction false} TempAttributesDistinct(names: seq<string>)
    requires Distinct(names)
    ensures Distinct(TempAttributes(names))
    decreases |names|
  {
    if names != [] {
      var init, last := names[..|names| - 1], names[|names| - 1];
      assert forall i :: 0 <= i < |init| ==> init[i] == names[i];
      TempAttributesDistinct(init);
      TempAttributesMembers(init, last);
    }
  }

  /**
   * For the properties of a parsed object, each attribute is listed once
   * and has a value in the feature it was read from.
   */
  lemma TempAttributesOfObject(p: Properties)
    requires WellFormed(p)
    ensures Distinct(TempAttributes(p.names))
    ensures forall a :: a in TempAttributes(p.names) ==> Get(p, a).Some?
  {
    TempAttributesDistinct(p.names);
    forall a | a in TempAttributes(p.names) ensures Get(p, a).Some? {
      TempAttributesMembers(p.names, a);
    }
  }

  /** `processData(data)` over the parsed `data.features`. */
  method ProcessData(features: seq<Feature>) returns (r: Result<seq<string>, LoadError>)
    ensures features == [] <==> r == Err(NoFeatures)
    ensures features != [] ==> r == Ok(TempAttributes(features[0].properties.names))
  {
    if features == [] {
      return Err(NoFeatures);
    }
    var names := features[0].properties.names;
    var attributes: seq<string> := [];
    for i := 0 to |names|
      invariant attributes == TempAttributes(names[..i])
    {
      assert names[..i + 1][..i] == names[..i];
      if IndexOf(names[i], "Temp") > -1 {
        attributes := attributes + [names[i]];
      }
    }
    assert names[..|names|] == names;
    return Ok(attributes);
  }
}
