/** The scanning loops of usr/auth.c over key values. */
module AclText {
  import opened CText
  import opened Codec
  import opened CodecBuffers
  import opened KeyBlocks
  import opened Chap

  lemma ItemsUnfold(text: CString, start: nat, end: nat)
    requires start <= end <= |text| && start < |text|
    requires ',' !in text[start..end] && (end < |text| ==> text[end] == ',')
    ensures Items(text[start..]) == [text[start..end]] + Items(if end < |text| then text[end + 1..] else "")
  {
    var t := text[start..];
    assert t[..end - start] == text[start..end];
    CommaIs(t, end - start);
    if end < |text| {
      assert t[end - start + 1..] == text[end + 1..];
    }
  }

  /** The inner scanning loop: the item that starts at `start`. */
  method NextItem(text: CString, start: nat) returns (item: CString, next: nat)
    requires start < |text|
    ensures start < next <= |text|
    ensures Items(text[start..]) == [item] + Items(text[next..])
  {
    hide Items;
    var end := start;
    while end < |text| && text[end] != ','
      invariant start <= end <= |text|
      invariant ',' !in text[start..end]
    {
      assert text[start..end + 1] == text[start..end] + [text[end]];
      end := end + 1;
    }
    ItemsUnfold(text, start, end);
    item := text[start..end];
    next := if end < |text| then end + 1 else end;
    assert text[|text|..] == "";
  }

  /** acl_chk_key: the first listed item that is the text of an acceptable option */
  method ChooseMethod(text: CString, methods: seq<int>) returns (chosen: Option<int>)
    ensures chosen == FirstMethod(methods, Items(text))
  {
    hide Items;
    var pos := 0;
    assert text[0..] == text;
    while pos < |text|
      invariant pos <= |text|
      invariant FirstMethod(methods, Items(text)) == FirstMethod(methods, Items(text[pos..]))
    {
      var item, next := NextItem(text, pos);
      assert Items(text[pos..])[1..] == Items(text[next..]);
      for i := 0 to |methods|
        invariant FindMethod(methods, item) == FindMethod(methods[i..], item)
      {
        assert methods[i..][1..] == methods[i + 1..];
        if MethodText(methods[i]) == Some(item) {
          return Some(methods[i]);
        }
      }
      pos := next;
    }
    assert text[|text|..] == "";
    NoItems();
    return None;
  }

  lemma NoItems()
    ensures Items("") == []
  {
  }

  /** acl_chk_chap_alg_key: the first listed number that is a configured algorithm */
  method ChooseAlg(text: CString, algs: seq<int>) returns (chosen: Option<int>)
    ensures chosen == FirstAlg(algs, Items(text))
  {
    hide Items, TextToNumber;
    var pos := 0;
    assert text[0..] == text;
    while pos < |text|
      invariant pos <= |text|
      invariant FirstAlg(algs, Items(text)) == FirstAlg(algs, Items(text[pos..]))
    {
      var item, next := NextItem(text, pos);
      assert Items(text[pos..])[1..] == Items(text[next..]);
      pos := next;
      var number := TextToNumber(item);
      if number.None? {
        continue;
      }
      for i := 0 to |algs|
        invariant number.value !in algs[..i]
      {
        if number.value == algs[i] {
          return Some(algs[i]);
        }
      }
    }
    assert text[|text|..] == "";
    NoItems();
    return None;
  }

  /** acl_data_to_text into the scratch buffer */
  method ResponseTextOf(rsp: seq<byte>) returns (text: CString)
    ensures text == ResponseText(rsp)
  {
    hide HexText;
    var scratch := new char[STR_MAX_LEN](_ => '\0');
    var err := DataToTextBuffer(rsp, scratch);
    if err {
      return "";
    }
    return scratch[..2 + 2 * |rsp|];
  }

  /** acl_text_to_data into a buffer for one key value */
  method Decoded(text: Option<CString>) returns (data: Option<seq<byte>>)
    ensures data == TextToData(text, STR_MAX_LEN)
  {
    hide TextToData;
    var buffer := new byte[STR_MAX_LEN](_ => 0);
    var len := TextToDataBuffer(text, buffer);
    return if len.None? then None else Some(buffer[..len.value]);
  }

  /** acl_set_option_list and its checks, for the algorithm list */
  method CheckAlgList(algs: seq<int>) returns (ok: bool)
    ensures ok == ValidAlgList(algs)
  {
    if |algs| > ALG_MAX_COUNT {
      return false;
    }
    for i := 0 to |algs|
      invariant forall k :: 0 <= k < i ==> KnownAlgOption(algs[k])
    {
      if !KnownAlgOption(algs[i]) {
        return false;
      }
    }
    for i := 0 to |algs|
      invariant forall k, j :: 0 <= k < i && 0 <= j < |algs| && j != k ==> algs[k] != algs[j]
    {
      for j := 0 to |algs|
        invariant forall k :: 0 <= k < j && k != i ==> algs[i] != algs[k]
      {
        if j != i && algs[i] == algs[j] {
          return false;
        }
      }
    }
    return |algs| >= 1;
  }
}
