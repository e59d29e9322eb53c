/** The validation-schema builder: one rule per configured field whose id is
    the id of a form parameter. A rule is described by its value kind, its
    required-or-nullable policy, its optional default and its optional input
    transform, which is what the form library is handed. */
module ValidationSchema {
  import opened ActionTypes

  datatype Kind = NumberSchema | BooleanSchema | StringSchema

  /** `Unconstrained` is a rule on which neither `required` nor `nullable`
      has been called yet. */
  datatype Presence = Unconstrained | Required(message: string) | Nullable

  /** The date/time transform: an empty original input becomes `null`. */
  datatype Transform = EmptyStringToNull

  datatype Rule = Rule(kind: Kind, presence: Presence, default: Option<Value>, transform: Option<Transform>)

  const REQUIRED_MESSAGE := "This field is required"

  predicate IsTemporal(inputType: Option<string>) {
    inputType == Some("date") || inputType == Some("datetime") || inputType == Some("time")
  }

  /** `getFieldValidationType`: numbers and booleans get their own kind,
      everything else is a string; only the date and time inputs carry the
      empty-to-null transform. */
  function GetFieldValidationType(s: FieldSettings): (r: Rule)
    ensures r.presence == Unconstrained && r.default == None
    ensures r.kind == NumberSchema <==> s.inputType == Some("number")
    ensures r.kind == BooleanSchema <==> s.inputType == Some("boolean")
    ensures r.transform == Some(EmptyStringToNull) <==> IsTemporal(s.inputType)
    ensures r.transform.Some? ==> r.kind == StringSchema
  {
    if s.inputType == Some("number") then Rule(NumberSchema, Unconstrained, None, None)
    else if s.inputType == Some("boolean") then Rule(BooleanSchema, Unconstrained, None, None)
    else if IsTemporal(s.inputType) then Rule(StringSchema, Unconstrained, None, Some(EmptyStringToNull))
    else Rule(StringSchema, Unconstrained, None, None)
  }

  /** `originalValue?.length` is a non-zero number. */
  predicate HasLength(v: Value) {
    v.Str? && |v.s| > 0
  }

  /** What a rule's transform does to a cast `value` given the `original`
      input: the date/time transform keeps the value only when the original
      had a length, and gives `null` otherwise. */
  function ApplyTransform(t: Option<Transform>, value: Value, original: Value): (r: Value)
    ensures t.None? || HasLength(original) ==> r == value
    ensures t.Some? && !HasLength(original) ==> r == Null
  {
    match t
    case None => value
    case Some(EmptyStringToNull) => if HasLength(original) then value else Null
  }

  /** After the date/time transform an input is never the empty string, and
      a missing input stays missing. */
  lemma TemporalInputNeverEmpty(s: FieldSettings, v: Value)
    requires IsTemporal(s.inputType)
    ensures ApplyTransform(GetFieldValidationType(s).transform, v, v) != Str("")
    ensures v == Null ==> ApplyTransform(GetFieldValidationType(s).transform, v, v) == Null
  {
  }

  /** The rule built for one field setting: the base rule of its input type,
      made required with the fixed message when `required` is set and
      nullable otherwise, with the default attached only when it is not
      empty by `isEmpty`. */
  function FieldRule(s: FieldSettings, isEmpty: Value -> bool): (r: Rule)
    ensures r.kind == GetFieldValidationType(s).kind && r.transform == GetFieldValidationType(s).transform
    ensures s.required ==> r.presence == Required(REQUIRED_MESSAGE)
    ensures !s.required ==> r.presence == Nullable
    ensures r.default.Some? <==> !isEmpty(s.defaultValue)
    ensures r.default.Some? ==> r.default.value == s.defaultValue
  {
    var base := GetFieldValidationType(s);
    var constrained := if s.required then base.(presence := Required(REQUIRED_MESSAGE)) else base.(presence := Nullable);
    if !isEmpty(s.defaultValue) then constrained.(default := Some(s.defaultValue)) else constrained
  }

  /** `parameters.find(parameter => parameter.id === id)`: the first
      parameter with that id, if there is one. */
  function FindParameter(params: seq<Parameter>, id: string): (r: Option<Parameter>)
    ensures r.None? <==> forall i :: 0 <= i < |params| ==> params[i].id != id
    ensures r.Some? ==> exists i ::
      && 0 <= i < |params|
      && params[i] == r.value
      && r.value.id == id
      && forall j :: 0 <= j < i ==> params[j].id != id
  {
    if params == [] then None
    else if params[0].id == id then Some(params[0])
    else
      var r := FindParameter(params[1..], id);
      assert forall i :: 1 <= i < |params| ==> params[i] == params[1..][i - 1];
      if r.Some? then
        var i :| 0 <= i < |params[1..]| && params[1..][i] == r.value && r.value.id == id &&
          forall j :: 0 <= j < i ==> params[1..][j].id != id;
        assert params[i + 1] == r.value;
        r
      else r
  }

  /** The settings kept by the `filter`; it never lengthens the list. */
  function PresentSettings(params: seq<Parameter>, values: seq<FieldSettings>): (r: seq<FieldSettings>)
    ensures |r| <= |values|
  {
    if values == [] then []
    else
      var rest := PresentSettings(params, values[1..]);
      if FindParameter(params, values[0].id).Some? then [values[0]] + rest else rest
  }

  /** The `filter` keeps exactly the settings whose id is a parameter's. */
  lemma {:induction false} PresentSettingsMembership(params: seq<Parameter>, values: seq<FieldSettings>, s: FieldSettings)
    ensures s in PresentSettings(params, values) <==> s in values && FindParameter(params, s.id).Some?
  {
    if values != [] {
      PresentSettingsMembership(params, values[1..], s);
      assert values == [values[0]] + values[1..];
    }
  }

  /** The `[id, rule]` pairs built by the `map`. */
  function SchemaEntries(settings: seq<FieldSettings>, isEmpty: Value -> bool): seq<(string, Rule)> {
    seq(|settings|, i requires 0 <= i < |settings| => (settings[i].id, FieldRule(settings[i], isEmpty)))
  }

  /** `Object.fromEntries`: entries are stored in order, so a later entry
      for a key replaces an earlier one. */
  function FromEntries(entries: seq<(string, Rule)>): map<string, Rule> {
    if entries == [] then map[]
    else FromEntries(entries[..|entries| - 1])[entries[|entries| - 1].0 := entries[|entries| - 1].1]
  }

  /** The keys of `Object.fromEntries` are exactly the keys of the entries. */
  lemma {:induction false} FromEntriesKeys(entries: seq<(string, Rule)>)
    ensures FromEntries(entries).Keys == set i | 0 <= i < |entries| :: entries[i].0
  {
    if entries != [] {
      var init := entries[..|entries| - 1];
      FromEntriesKeys(init);
      assert forall i :: 0 <= i < |init| ==> init[i] == entries[i];
      assert (set i | 0 <= i < |entries| :: entries[i].0) ==
        (set i | 0 <= i < |init| :: init[i].0) + {entries[|entries| - 1].0};
    }
  }

  /** An entry that no later entry overrides is the value its key holds. */
  lemma {:induction false} FromEntriesLastWins(entries: seq<(string, Rule)>, i: nat)
    requires i < |entries|
    requires forall j :: i < j < |entries| ==> entries[j].0 != entries[i].0
    ensures entries[i].0 in FromEntries(entries) && FromEntries(entries)[entries[i].0] == entries[i].1
  {
    var init := entries[..|entries| - 1];
    if i < |init| {
      assert init[i] == entries[i];
      assert forall j :: i < j < |init| ==> init[j] == entries[j];
      FromEntriesLastWins(init, i);
    }
  }

  /** The schema built from the settings values in enumeration order. */
  function BuildSchema(params: seq<Parameter>, values: seq<FieldSettings>, isEmpty: Value -> bool): map<string, Rule> {
    FromEntries(SchemaEntries(PresentSettings(params, values), isEmpty))
  }

  /** `getFormValidationSchema`: the schema over `Object.values(record)`.
      Its keys are the setting ids that match a parameter id; the rule under
      a key is built from the last record entry whose setting has that id. */
  function GetFormValidationSchema(params: seq<Parameter>, record: SettingsRecord, isEmpty: Value -> bool): (schema: map<string, Rule>)
    ensures forall k :: k in schema <==>
      (exists p :: p in params && p.id == k) && exists i :: 0 <= i < |record| && record[i].1.id == k
    ensures forall k :: k in schema ==>
      exists i ::
        && 0 <= i < |record|
        && record[i].1.id == k
        && (forall j :: i < j < |record| ==> record[j].1.id != k)
        && schema[k] == FieldRule(record[i].1, isEmpty)
  {
    var schema := BuildSchema(params, RecordValues(record), isEmpty);
    assert forall k :: k in schema <==>
        (exists p :: p in params && p.id == k) && exists i :: 0 <= i < |record| && record[i].1.id == k by {
      forall k {
        RecordSchemaKeys(params, record, isEmpty, k);
      }
    }
    assert forall k :: k in schema ==>
        exists i ::
          && 0 <= i < |record|
          && record[i].1.id == k
          && (forall j :: i < j < |record| ==> record[j].1.id != k)
          && schema[k] == FieldRule(record[i].1, isEmpty) by {
      forall k | k in schema {
        RecordSchemaLastWins(params, record, isEmpty, k);
      }
    }
    schema
  }

  /** `BuildSchemaKeys`, read over the record's entries. */
  lemma RecordSchemaKeys(params: seq<Parameter>, record: SettingsRecord, isEmpty: Value -> bool, k: string)
    ensures k in BuildSchema(params, RecordValues(record), isEmpty) <==>
      (exists p :: p in params && p.id == k) && exists i :: 0 <= i < |record| && record[i].1.id == k
  {
    var values := RecordValues(record);
    BuildSchemaKeys(params, values, isEmpty, k);
    assert forall i :: 0 <= i < |record| ==> values[i] == record[i].1;
  }

  /** `BuildSchemaLastWins`, read over the record's entries. */
  lemma RecordSchemaLastWins(params: seq<Parameter>, record: SettingsRecord, isEmpty: Value -> bool, k: string)
    requires k in BuildSchema(params, RecordValues(record), isEmpty)
    ensures exists i ::
      && 0 <= i < |record|
      && record[i].1.id == k
      && (forall j :: i < j < |record| ==> record[j].1.id != k)
      && BuildSchema(params, RecordValues(record), isEmpty)[k] == FieldRule(record[i].1, isEmpty)
  {
    var values := RecordValues(record);
    BuildSchemaLastWins(params, values, isEmpty, k);
    var i :| && 0 <= i < |values|
             && values[i].id == k
             && (forall j :: i < j < |values| ==> values[j].id != k)
             && BuildSchema(params, values, isEmpty)[k] == FieldRule(values[i], isEmpty);
    assert values[i] == record[i].1;
    assert forall j :: i < j < |record| ==> values[j] == record[j].1;
  }

  lemma {:induction false} PresentSettingsSnoc(params: seq<Parameter>, values: seq<FieldSettings>, s: FieldSettings)
    ensures PresentSettings(params, values + [s]) ==
      PresentSettings(params, values) + if FindParameter(params, s.id).Some? then [s] else []
  {
    if values == [] {
      assert values + [s] == [s];
    } else {
      assert (values + [s])[1..] == values[1..] + [s];
      PresentSettingsSnoc(params, values[1..], s);
    }
  }

  /** One more settings value either adds or replaces the rule under its
      id, when some parameter has that id, or leaves the schema alone. */
  lemma BuildSchemaSnoc(params: seq<Parameter>, values: seq<FieldSettings>, s: FieldSettings, isEmpty: Value -> bool)
    ensures BuildSchema(params, values + [s], isEmpty) ==
      if FindParameter(params, s.id).Some? then BuildSchema(params, values, isEmpty)[s.id := FieldRule(s, isEmpty)]
      else BuildSchema(params, values, isEmpty)
  {
    PresentSettingsSnoc(params, values, s);
    var present := PresentSettings(params, values);
    if FindParameter(params, s.id).Some? {
      var entries := SchemaEntries(present + [s], isEmpty);
      assert entries[..|entries| - 1] == SchemaEntries(present, isEmpty);
      assert entries[|entries| - 1] == (s.id, FieldRule(s, isEmpty));
    } else {
      assert PresentSettings(params, values + [s]) == present;
    }
  }

  /** The keys of the schema are exactly the ids of settings values that
      match a parameter id. */
  lemma {:induction false} BuildSchemaKeys(params: seq<Parameter>, values: seq<FieldSettings>, isEmpty: Value -> bool, k: string)
    ensures k in BuildSchema(params, values, isEmpty) <==>
      (exists p :: p in params && p.id == k) && exists i :: 0 <= i < |values| && values[i].id == k
  {
    if values == [] {
      assert PresentSettings(params, values) == [];
    } else {
      var init, last := values[..|values| - 1], values[|values| - 1];
      assert values == init + [last];
      BuildSchemaSnoc(params, init, last, isEmpty);
      BuildSchemaKeys(params, init, isEmpty, k);
      assert forall i :: 0 <= i < |init| ==> values[i] == init[i];
      if last.id == k {
        assert values[|values| - 1].id == k;
      }
    }
  }

  /** The rule under a key of the schema is the one built from the last
      settings value with that id. */
  lemma {:induction false} BuildSchemaLastWins(params: seq<Parameter>, values: seq<FieldSettings>, isEmpty: Value -> bool, k: string)
    requires k in BuildSchema(params, values, isEmpty)
    ensures exists i ::
      && 0 <= i < |values|
      && values[i].id == k
      && (forall j :: i < j < |values| ==> values[j].id != k)
      && BuildSchema(params, values, isEmpty)[k] == FieldRule(values[i], isEmpty)
  {
    if values == [] {
      assert false;
    } else {
      var init, last := values[..|values| - 1], values[|values| - 1];
      assert values == init + [last];
      BuildSchemaSnoc(params, init, last, isEmpty);
      var i;
      if last.id == k && FindParameter(params, k).Some? {
        i := |values| - 1;
      } else {
        var before := BuildSchema(params, init, isEmpty);
        assert k in before && BuildSchema(params, values, isEmpty)[k] == before[k];
        assert last.id != k by {
          BuildSchemaKeys(params, init, isEmpty, k);
          var p :| p in params && p.id == k;
          var n :| 0 <= n < |params| && params[n] == p;
        }
        BuildSchemaLastWins(params, init, isEmpty, k);
        i :| && 0 <= i < |init|
             && init[i].id == k
             && (forall j :: i < j < |init| ==> init[j].id != k)
             && before[k] == FieldRule(init[i], isEmpty);
        assert values[i] == init[i];
        forall j | i < j < |values| ensures values[j].id != k {
          if j < |init| { assert values[j] == init[j]; }
        }
      }
      assert values[i].id == k && BuildSchema(params, values, isEmpty)[k] == FieldRule(values[i], isEmpty);
    }
  }
}
