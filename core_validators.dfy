/**
 * validate_dict_key (ggongsul/core/validators.py): look up several required keys
 * at once, or raise a ValidationError listing every missing one.
 */
module CoreValidators {
  import opened Wrappers

  /** f"{k} is required!" */
  function RequiredMessage(k: string): string { k + " is required!" }

  lemma RequiredMessageInjective(a: string, b: string)
    requires RequiredMessage(a) == RequiredMessage(b)
    ensures a == b
  {
    assert a == RequiredMessage(a)[..|a|];
    assert b == RequiredMessage(b)[..|b|];
  }

  /** The error list the loop builds: one message per missing key, in keys order. */
  function MissingKeyMessages<V>(d: map<string, V>, keys: seq<string>): (msgs: seq<string>)
    ensures |msgs| <= |keys|
    ensures msgs == [] <==> forall i :: 0 <= i < |keys| ==> keys[i] in d
    ensures forall m :: m in msgs <==> exists i :: 0 <= i < |keys| && keys[i] !in d && m == RequiredMessage(keys[i])
  {
    if keys == [] then []
    else
      var init := keys[..|keys| - 1];
      var k := keys[|keys| - 1];
      var msgs := MissingKeyMessages(d, init) + (if k in d then [] else [RequiredMessage(k)]);
      assert forall i :: 0 <= i < |init| ==> init[i] == keys[i];
      msgs
  }

  /**
   * validate_dict_key: with every key present, their values in keys order;
   * otherwise the ValidationError carrying MissingKeyMessages.
   */
  method ValidateDictKey<V>(d: map<string, V>, keys: seq<string>) returns (r: Result<seq<V>, seq<string>>)
    ensures r.Failure? <==> exists i :: 0 <= i < |keys| && keys[i] !in d
    ensures r.Failure? ==> r.error == MissingKeyMessages(d, keys) && r.error != []
    ensures r.Success? ==> |r.value| == |keys|
                           && forall i :: 0 <= i < |keys| ==> keys[i] in d && r.value[i] == d[keys[i]]
  {
    var errorMsgs: seq<string> := [];
    for i := 0 to |keys|
      invariant errorMsgs == MissingKeyMessages(d, keys[..i])
    {
      assert keys[..i + 1][..i] == keys[..i];
      if keys[i] in d {
        continue;
      }
      errorMsgs := errorMsgs + [RequiredMessage(keys[i])];
    }
    assert keys[..|keys|] == keys;
    if errorMsgs == [] {
      return Success(seq(|keys|, i requires 0 <= i < |keys| && keys[i] in d => d[keys[i]]));
    }
    r := Failure(errorMsgs);
  }

  /** Each missing key contributes exactly one message: the count of messages is the count of missing keys. */
  lemma {:induction false} OneMessagePerMissingKey<V>(d: map<string, V>, keys: seq<string>)
    ensures |MissingKeyMessages(d, keys)| == |MissingKeys(d, keys)|
    ensures forall i :: 0 <= i < |MissingKeys(d, keys)| ==>
              MissingKeyMessages(d, keys)[i] == RequiredMessage(MissingKeys(d, keys)[i])
  {
    if keys != [] {
      OneMessagePerMissingKey(d, keys[..|keys| - 1]);
    }
  }

  /** The keys absent from d, in keys order. */
  function MissingKeys<V>(d: map<string, V>, keys: seq<string>): (ks: seq<string>)
    ensures forall k :: k in ks <==> k in keys && k !in d
  {
    if keys == [] then []
    else
      var init := keys[..|keys| - 1];
      var k := keys[|keys| - 1];
      assert keys == init + [k];
      MissingKeys(d, init) + (if k in d then [] else [k])
  }
}
