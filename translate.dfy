/**
 * Display labels for codes (main.go translateModel, translateTech). An
 * unknown model code passes through as it is; an unknown tech key is
 * dropped.
 */
module Translate {
  import opened Wrappers
  import opened Models
  import opened Text

  /** translateModel: the label of the first reference whose key is `model`, or `model` itself. */
  function TranslateModel(refs: seq<ModelReference>, model: string): (r: string)
    ensures (forall j :: 0 <= j < |refs| ==> refs[j].Key != model) ==> r == model
    ensures forall i :: (0 <= i < |refs| && refs[i].Key == model
      && forall j :: 0 <= j < i ==> refs[j].Key != model) ==> r == refs[i].Value
  {
    if |refs| == 0 then model
    else if refs[0].Key == model then refs[0].Value
    else TranslateModel(refs[1..], model)
  }

  /** The inner loop of translateTech: the label of the first tech reference whose key is `key`. */
  function LookupTech(refs: seq<TechReference>, key: string): Option<string> {
    if |refs| == 0 then None
    else if refs[0].Key == key then Some(refs[0].Value)
    else LookupTech(refs[1..], key)
  }

  /**
   * A key is known exactly when some reference carries it, and then its
   * label is that of the first such reference.
   */
  lemma {:induction false} LookupTechFirst(refs: seq<TechReference>, key: string)
    ensures LookupTech(refs, key).None? <==> forall j :: 0 <= j < |refs| ==> refs[j].Key != key
    ensures forall i :: (0 <= i < |refs| && refs[i].Key == key
      && forall j :: 0 <= j < i ==> refs[j].Key != key) ==> LookupTech(refs, key) == Some(refs[i].Value)
    decreases |refs|
  {
    if |refs| > 0 && refs[0].Key != key {
      LookupTechFirst(refs[1..], key);
      assert forall j :: 0 < j < |refs| ==> refs[j] == refs[1..][j - 1];
    }
  }

  /** What one key contributes: its label when the key is known, nothing otherwise. */
  function Labels(refs: seq<TechReference>, key: string): seq<string> {
    match LookupTech(refs, key)
    case Some(shown) => [shown]
    case None => []
  }

  /** The labels of the known keys among `keys`, in order; unknown keys contribute nothing. */
  function TranslateKeys(refs: seq<TechReference>, keys: seq<string>): seq<string> {
    if |keys| == 0 then [] else Labels(refs, keys[0]) + TranslateKeys(refs, keys[1..])
  }

  /** translateTech: the labels of the ", "-separated keys of `tech`. */
  function TranslateTech(refs: seq<TechReference>, tech: string): seq<string> {
    TranslateKeys(refs, Split(tech))
  }

  /** Translating a list of keys piece by piece is translating it at once. */
  lemma {:induction false} TranslateKeysAppend(refs: seq<TechReference>, a: seq<string>, b: seq<string>)
    ensures TranslateKeys(refs, a + b) == TranslateKeys(refs, a) + TranslateKeys(refs, b)
    decreases |a|
  {
    if |a| == 0 {
      assert a + b == b;
    } else {
      assert (a + b)[1..] == a[1..] + b;
      TranslateKeysAppend(refs, a[1..], b);
    }
  }

  /**
   * Every label produced belongs to a key of the input: the
   * output is never longer than the input, and every label is the first
   * match of some input key.
   */
  lemma {:induction false} TranslateKeysLabels(refs: seq<TechReference>, keys: seq<string>)
    ensures |TranslateKeys(refs, keys)| <= |keys|
    ensures forall shown :: shown in TranslateKeys(refs, keys) ==>
      exists j :: 0 <= j < |keys| && LookupTech(refs, keys[j]) == Some(shown)
    decreases |keys|
  {
    if |keys| > 0 {
      TranslateKeysLabels(refs, keys[1..]);
      forall shown | shown in TranslateKeys(refs, keys)
        ensures exists j :: 0 <= j < |keys| && LookupTech(refs, keys[j]) == Some(shown)
      {
        if LookupTech(refs, keys[0]) == Some(shown) {
        } else {
          var j :| 0 <= j < |keys[1..]| && LookupTech(refs, keys[1..][j]) == Some(shown);
          assert keys[1..][j] == keys[j + 1];
        }
      }
    }
  }

  /** When every key is known, each key gives exactly its label, position by position. */
  lemma {:induction false} TranslateKeysAllKnown(refs: seq<TechReference>, keys: seq<string>)
    requires forall j :: 0 <= j < |keys| ==> LookupTech(refs, keys[j]).Some?
    ensures |TranslateKeys(refs, keys)| == |keys|
    ensures forall j :: 0 <= j < |keys| ==> TranslateKeys(refs, keys)[j] == LookupTech(refs, keys[j]).value
    decreases |keys|
  {
    if |keys| > 0 {
      assert forall j :: 0 <= j < |keys[1..]| ==> keys[1..][j] == keys[j + 1];
      TranslateKeysAllKnown(refs, keys[1..]);
    }
  }

  /** When no key is known, nothing is produced. */
  lemma {:induction false} TranslateKeysNoneKnown(refs: seq<TechReference>, keys: seq<string>)
    requires forall j :: 0 <= j < |keys| ==> LookupTech(refs, keys[j]).None?
    ensures TranslateKeys(refs, keys) == []
    decreases |keys|
  {
    if |keys| > 0 {
      assert forall j :: 0 <= j < |keys[1..]| ==> keys[1..][j] == keys[j + 1];
      TranslateKeysNoneKnown(refs, keys[1..]);
    }
  }

  /** translateTech gives at most one label per ", "-separated key. */
  lemma TranslateTechBound(refs: seq<TechReference>, tech: string)
    ensures |TranslateTech(refs, tech)| <= |Split(tech)|
  {
    TranslateKeysLabels(refs, Split(tech));
  }

  /**
   * The two translations treat an unknown code differently: the model
   * translation hands it back unchanged, the tech translation drops it.
   */
  lemma UnknownCode(models: seq<ModelReference>, techs: seq<TechReference>, code: string)
    requires !HasSep(code)
    requires forall j :: 0 <= j < |models| ==> models[j].Key != code
    requires forall j :: 0 <= j < |techs| ==> techs[j].Key != code
    ensures TranslateModel(models, code) == code
    ensures TranslateTech(techs, code) == []
  {
    SplitNoSep(code);
    LookupTechFirst(techs, code);
    assert Labels(techs, code) == [];
    assert [code][1..] == [];
    assert TranslateKeys(techs, [code]) == Labels(techs, code) + TranslateKeys(techs, []);
  }

  /**
   * With a table that knows t1 only, "t1, t9" translates to t1's label
   * alone: t9 is dropped.
   */
  lemma TranslateTechExample(t1: string, t9: string, shown: string)
    requires t1 != t9 && !HasSep(t1) && !HasSep(t9)
    ensures TranslateTech([TechReference(t1, shown)], t1 + Sep + t9) == [shown]
  {
    var keys := [t1, t9];
    SplitJoin(keys);
    var refs := [TechReference(t1, shown)];
    assert refs[1..] == [];
    assert Labels(refs, t1) == [shown];
    assert LookupTech(refs, t9) == LookupTech(refs[1..], t9) == None;
    assert Labels(refs, t9) == [];
    assert keys[1..] == [t9] && keys[1..][1..] == [];
    assert TranslateKeys(refs, [t9]) == [];
    assert TranslateKeys(refs, keys) == [shown] + TranslateKeys(refs, [t9]);
  }
}
