/** The modal form that adds or edits one entry of an object-array field: the
    value it seeds the entry with, and when its Done button is enabled. */
module VariableInputFieldForm {
  import opened Wrappers
  import opened JsonValues

  datatype BlockKind = FormGroupKind | FormConditionKind | ObjectArrayKind

  /** A property of the entry's group. Only plain form items carry a default. */
  datatype FormBlock =
    | FormItem(fieldKey: string, default: Option<Json>)
    | OtherBlock(kind: BlockKind, fieldKey: string)

  /** The property contributes its default: a form item whose default is truthy. */
  predicate ContributesKey(b: FormBlock, key: string) {
    b.FormItem? && b.fieldKey == key && b.default.Some? && Truthy(b.default.value)
  }

  /** The reduce over the group's properties, left to right; a later property
      with the same key overwrites an earlier one. */
  function DefaultValues(properties: seq<FormBlock>): map<string, Json> {
    if |properties| == 0 then map[]
    else
      var acc := DefaultValues(properties[..|properties| - 1]);
      var b := properties[|properties| - 1];
      if b.FormItem? && b.default.Some? && Truthy(b.default.value) then acc[b.fieldKey := b.default.value] else acc
  }

  /** Position `i` is the last property contributing `key`. */
  predicate IsLastContributor(properties: seq<FormBlock>, key: string, i: int) {
    0 <= i < |properties| && ContributesKey(properties[i], key)
    && forall j :: i < j < |properties| ==> !ContributesKey(properties[j], key)
  }

  /** Some property contributes `key`. */
  predicate SomeContributor(properties: seq<FormBlock>, key: string) {
    exists i :: 0 <= i < |properties| && ContributesKey(properties[i], key)
  }

  /** The defaults map holds exactly the keys some truthy-default form item names,
      each with the default of the last such item. */
  lemma {:induction false} DefaultValuesSpec(properties: seq<FormBlock>, key: string)
    ensures key in DefaultValues(properties) <==> SomeContributor(properties, key)
    ensures key in DefaultValues(properties) ==>
              exists i :: IsLastContributor(properties, key, i) && DefaultValues(properties)[key] == properties[i].default.value
  {
    if |properties| > 0 {
      var init := properties[..|properties| - 1];
      var b := properties[|properties| - 1];
      var last := |properties| - 1;
      DefaultValuesSpec(init, key);
      var m := DefaultValues(properties);
      if ContributesKey(b, key) {
        assert m[key] == b.default.value;
        assert IsLastContributor(properties, key, last);
      } else {
        assert m == DefaultValues(init) || key != b.fieldKey;
        assert key in m <==> key in DefaultValues(init);
        if key in m {
          assert m[key] == DefaultValues(init)[key];
          var i :| IsLastContributor(init, key, i) && DefaultValues(init)[key] == init[i].default.value;
          assert properties[i] == init[i];
          assert IsLastContributor(properties, key, i);
        }
        if SomeContributor(properties, key) {
          var i :| 0 <= i < |properties| && ContributesKey(properties[i], key);
          assert init[i] == properties[i];
        }
        if SomeContributor(init, key) {
          var i :| 0 <= i < |init| && ContributesKey(init[i], key);
          assert init[i] == properties[i];
        }
      }
    }
  }

  /** `item ?? defaults`: `None` stands for `undefined`, `Some(JNull)` for `null`. */
  function InitialValue(item: Option<Json>, properties: seq<FormBlock>): (r: Json)
    ensures item.Some? && item.value != JNull ==> r == item.value
    ensures item.None? || item.value == JNull ==> r == JObject(DefaultValues(properties))
  {
    if item.Some? && item.value != JNull then item.value else JObject(DefaultValues(properties))
  }

  /** A `setValue(path, value)` call on the connector form. */
  datatype SetValue = SetValue(path: string, value: Json)

  /** What mounting the form writes: the initial value, once, at `path`. */
  function OnMount(path: string, item: Option<Json>, properties: seq<FormBlock>): (r: seq<SetValue>)
    ensures |r| == 1 && r[0].path == path
    ensures item.Some? && item.value != JNull ==> r[0].value == item.value
    ensures (item.None? || item.value == JNull) ==>
              && r[0].value.JObject?
              && (forall key :: key in r[0].value.fields <==> SomeContributor(properties, key))
              && (forall key :: key in r[0].value.fields ==>
                    exists i :: IsLastContributor(properties, key, i) && r[0].value.fields[key] == properties[i].default.value)
  {
    forall key
      ensures key in DefaultValues(properties) <==> SomeContributor(properties, key)
      ensures key in DefaultValues(properties) ==>
                exists i :: IsLastContributor(properties, key, i) && DefaultValues(properties)[key] == properties[i].default.value
    {
      DefaultValuesSpec(properties, key);
    }
    [SetValue(path, InitialValue(item, properties))]
  }

  /** The Done button. `isValid` is `None` while validation is still pending. */
  datatype DoneButton = DoneButton(enabled: bool, onClickValue: Json)

  function Done(disabled: bool, isValid: Option<bool>, value: Json): (r: DoneButton)
    ensures r.enabled <==> !disabled && isValid == Some(true)
    ensures isValid.None? ==> !r.enabled
    ensures r.onClickValue == value
  {
    DoneButton(!(disabled || !isValid.GetOr(false)), value)
  }
}
