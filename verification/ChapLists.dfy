/** Comma-separated lists of the authentication keys: what one side sends, the other reads. */
module ChapLists {
  import opened CText
  import opened KeyBlocks
  import opened Chap

  // ---------- lists on the wire ----------

  predicate Plain(item: CString) { item != "" && ',' !in item }

  lemma CommaAfter(item: string, rest: string)
    requires ',' !in item
    ensures CommaAt(item + "," + rest) == |item|
    ensures CommaAt(item) == |item|
  {
    var t := item + "," + rest;
    assert t[..|item|] == item && item[..|item|] == item;
    CommaIs(t, |item|);
    CommaIs(item, |item|);
  }

  lemma ItemsStep(item: CString, rest: CString, text: CString)
    requires Plain(item)
    ensures text == item ==> Items(text) == [item]
    ensures text == item + "," + rest ==> Items(text) == [item] + Items(rest)
  {
    CommaAfter(item, rest);
    if text == item + "," + rest {
      hide CommaAt;
      assert text[..|item|] == item;
      assert text[|item| + 1..] == rest;
    } else if text == item {
      assert text[..|item|] == item;
    }
  }

  /** A list of items joined with commas is taken apart into the same items. */
  lemma {:induction false} ItemsOfJoin(items: seq<CString>)
    requires forall i :: 0 <= i < |items| ==> Plain(items[i])
    ensures Items(Join(items)) == items
  {
    if items == [] {
    } else if |items| == 1 {
      hide Items;
      ItemsStep(items[0], "", items[0]);
      assert items == [items[0]];
    } else {
      hide Items;
      ItemsOfJoin(items[1..]);
      ItemsStep(items[0], Join(items[1..]), Join(items));
      assert items == [items[0]] + items[1..];
    }
  }

  lemma DecimalPlain(n: nat)
    ensures Plain(Decimal(n))
  {
    var d := Decimal(n);
    hide Decimal;
    forall i | 0 <= i < |d| ensures d[i] != ',' {
      assert DigitValue(d[i], 10).Some?;
    }
  }

  lemma {:induction false} AlgTextsPlain(algs: seq<int>)
    ensures forall i :: 0 <= i < |algs| ==> Plain(AlgTexts(algs)[i])
  {
    if algs != [] {
      hide Decimal;
      AlgTextsPlain(algs[1..]);
      DecimalPlain(algs[0] % (ULONG_MAX + 1));
    }
  }

  /** The first algorithm of one side that the other side has too. */
  function FirstCommon(mine: seq<int>, theirs: seq<int>): Option<int> {
    if mine == [] then None
    else if mine[0] in theirs then Some(mine[0])
    else FirstCommon(mine[1..], theirs)
  }

  lemma AlgTextValue(alg: int)
    requires 0 <= alg <= ULONG_MAX
    ensures alg % (ULONG_MAX + 1) == alg
    ensures TextToNumber(Decimal(alg % (ULONG_MAX + 1))) == Some(alg)
  {
    hide Decimal, TextToNumber;
    NumberRoundTrip(alg);
  }

  lemma {:induction false} FirstAlgOfTexts(algs: seq<int>, theirs: seq<int>)
    requires forall i :: 0 <= i < |algs| ==> 0 <= algs[i] <= ULONG_MAX
    ensures FirstAlg(theirs, AlgTexts(algs)) == FirstCommon(algs, theirs)
  {
    if algs != [] {
      hide Decimal, TextToNumber;
      FirstAlgOfTexts(algs[1..], theirs);
      AlgTextValue(algs[0]);
      var t := AlgTexts(algs);
      var d := Decimal(algs[0] % (ULONG_MAX + 1));
      assert t == [d] + AlgTexts(algs[1..]);
      hide AlgTexts;
      assert t[0] == d && t[1..] == AlgTexts(algs[1..]);
    }
  }

  /** Negotiating a list of algorithms sent by this implementation. */
  lemma AlgNegotiation(algs: seq<int>, theirs: seq<int>)
    requires algs != [] && forall i :: 0 <= i < |algs| ==> 0 <= algs[i] <= ULONG_MAX
    ensures AlgKey(algs).Some?
    ensures FirstAlg(theirs, Items(AlgKey(algs).value)) == FirstCommon(algs, theirs)
  {
    hide FirstAlg, AlgTexts, Items, Join;
    AlgTextsPlain(algs);
    ItemsOfJoin(AlgTexts(algs));
    FirstAlgOfTexts(algs, theirs);
  }

  lemma MethodNegotiation(key: CString)
    requires key == "CHAP" || key == "CHAP,None"
    ensures FirstMethod([METHOD_CHAP], Items(key)) == Some(METHOD_CHAP)
    ensures FirstMethod([METHOD_CHAP, OPTION_NONE], Items("CHAP")) == Some(METHOD_CHAP)
  {
    hide Items;
    assert key == "CHAP,None" ==> key == "CHAP" + "," + "None";
    ItemsStep("CHAP", "None", key);
    ItemsStep("CHAP", "", "CHAP");
    assert Items(key)[0] == "CHAP";
  }
}
