/** Worked cases of the handler on concrete file names. */
module Scenarios {
  import opened Wrappers
  import opened Errors
  import opened StemCodec
  import opened Taxonomy
  import opened Catalog
  import opened KeyBuilder
  import opened Naming
  import opened Variations
  import opened Dispatcher

  /** The goshin stem `gi2` keys the record entered from the inside with
      number 2. */
  lemma GoshinInsideTwo()
    ensures DeriveKey("goshin", "gi2") == Ok([Condition("Enter", "inside"), Condition("Number", "2")])
  {
    DecodeInvertsNaming(Entering("inside", '2'), false);
    assert Stem(Entering("inside", '2'), false) == "gi2";
  }

  /** The basic_nage stem `n3` keys the record numbered 3. */
  lemma BasicNageThree()
    ensures DeriveKey("basic_nage", "n3") == Ok([Condition("Number", "3")])
  {
    BasicNageThreeNames();
    DecodeKeyNumbered(Numbered("basic_nage", "3"), false);
  }

  lemma BasicNageThreeNames()
    ensures Wellformed(Numbered("basic_nage", "3"))
    ensures Stem(Numbered("basic_nage", "3"), false) == "n3"
    ensures KeyOf(Numbered("basic_nage", "3")) == [Condition("Number", "3")]
  {
    assert AllDigits("3") by {
      assert IsDigit("3"[0]);
    }
  }

  /** Updating a record whose variations list is empty leaves exactly the
      new URL in it, and keeps the record's attributes. */
  lemma UpdateOfEmptyList(name: string, slot: nat, url: string, attributes: map<string, string>)
    ensures Rewritten(Update(name, slot), url, Item(attributes, [])) == Item(attributes, [url])
  {
    KeysSpec([], GetStub);
    assert Merge([], url, GetStub) == [url];
  }

  /** The scroll `basic_nage` is stored in the tables named after
      `BasicNageModel`. */
  lemma BasicNageTableName()
    ensures TableNamePrefix("basic_nage") == "BasicNageModel"
  {
    BasicNageSplit();
    BasicNageParts();
    assert "BasicNage" + "Model" == "BasicNageModel";
  }

  lemma BasicNageSplit()
    ensures Split("basic_nage", '_') == ["basic", "nage"]
  {
    assert "basic_nage" == "basic" + ['_'] + "nage";
    assert '_' !in "basic" && '_' !in "nage";
    SplitOfTwoParts("basic", "nage");
  }

  /** Two parts without '_', joined by one '_', split apart again. */
  lemma SplitOfTwoParts(a: string, b: string)
    requires '_' !in a && '_' !in b
    ensures Split(a + ['_'] + b, '_') == [a, b]
  {
    SplitAppend(a, '_', b);
    FindAbsent(a, '_');
    FindAbsent(b, '_');
  }

  lemma BasicNageParts()
    ensures CamelParts(["basic", "nage"]) == "BasicNage"
  {
    CapitalizeBasic();
    CapitalizeNage();
    assert ["basic", "nage"][1..] == ["nage"];
    assert ["nage"][1..] == [];
  }

  lemma CapitalizeBasic()
    ensures CapitalizeOrUnderscore("basic") == "Basic"
  {
    var low := LowerAll("asic");
    assert low == "asic" by {
      assert low[0] == 'a' && low[1] == 's' && low[2] == 'i' && low[3] == 'c';
    }
  }

  lemma CapitalizeNage()
    ensures CapitalizeOrUnderscore("nage") == "Nage"
  {
    var low := LowerAll("age");
    assert low == "age" by {
      assert low[0] == 'a' && low[1] == 'g' && low[2] == 'e';
    }
  }

  /** The goshin technique inside/2 is merged without the reset marker and
      reset with it. */
  lemma GoshinStemPlan(stem: string, reset: bool, key: Filter, resolve: string -> Option<string>,
                       tables: map<string, seq<Item>>, name: string, slot: nat)
    requires stem == Stem(Entering("inside", '2'), reset) && key == KeyOf(Entering("inside", '2'))
    requires resolve(TableNamePrefix("goshin")) == Some(name) && name in tables
    requires FirstMatch(tables[name], key) == Some(slot)
    ensures PlanDanzanRyu(stem, resolve, tables) == Ok(if reset then Reset(name, slot) else Update(name, slot))
  {
    var t := Entering("inside", '2');
    DecodeInvertsNaming(t, reset);
    PlanOfDecodedStem(stem, "goshin", key, resolve, tables);
  }

  /** The stems and the key of the goshin technique inside/2. */
  lemma GoshinInsideTwoNames()
    ensures Stem(Entering("inside", '2'), false) == "gi2"
    ensures Stem(Entering("inside", '2'), true) == "gi2z"
    ensures KeyOf(Entering("inside", '2')) == [Condition("Enter", "inside"), Condition("Number", "2")]
  {
  }

  /** The goshin stem `gi2` merges the URL into the variations of the record
      inside/2; `gi2z` empties the variations of that same record. */
  lemma ResetAndUpdateOfSameRecord(resolve: string -> Option<string>, tables: map<string, seq<Item>>,
                                   name: string, slot: nat)
    requires resolve(TableNamePrefix("goshin")) == Some(name) && name in tables
    requires FirstMatch(tables[name], [Condition("Enter", "inside"), Condition("Number", "2")]) == Some(slot)
    ensures PlanDanzanRyu("gi2", resolve, tables) == Ok(Update(name, slot))
    ensures PlanDanzanRyu("gi2z", resolve, tables) == Ok(Reset(name, slot))
  {
    var key := [Condition("Enter", "inside"), Condition("Number", "2")];
    GoshinInsideTwoNames();
    GoshinStemPlan("gi2", false, key, resolve, tables, name, slot);
    GoshinStemPlan("gi2z", true, key, resolve, tables, name, slot);
  }
}
