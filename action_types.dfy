/** The records the writeback-action form works on: action parameters, the
    per-field settings an editor stores for them, and the render descriptors
    built from both. Optional JavaScript properties are `Option`s; a property
    whose absence behaves like a fixed value (`required`, `valueOptions`) takes
    that value instead. */
module ActionTypes {

  datatype Option<+T> = None | Some(value: T)

  /** A JavaScript value as far as the form code looks at it: `null` or
      `undefined`, a boolean, a number (whole numbers only) or a string. */
  datatype Value = Null | Bool(b: bool) | Num(n: int) | Str(s: string)

  /** A database field backing a parameter; only its identity is modelled. */
  datatype Field = Field(id: int)

  /** An action parameter: its id and the two optional names it may carry
      (`display-name` and `name`). */
  datatype Parameter = Parameter(id: string, displayName: Option<string>, name: Option<string>)

  /** The editor's settings for one form field. A missing `required` behaves
      as `false` and missing `valueOptions` as the empty list. */
  datatype FieldSettings = FieldSettings(
    id: string,
    name: Option<string>,
    title: Option<string>,
    description: Option<string>,
    placeholder: Option<string>,
    inputType: Option<string>,
    fieldType: Option<string>,
    required: bool,
    defaultValue: Value,
    valueOptions: seq<Value>,
    field: Option<Field>)

  /** The empty settings object `{}` used for a parameter with no settings
      entry (its `id` is never read). */
  const EMPTY_SETTINGS := FieldSettings("", None, None, None, None, None, None, false, Null, [], None)

  /** One choice of a `select` or `radio` widget. */
  datatype FormOption = FormOption(name: Value, value: Value)

  /** The render-ready descriptor of one form field; `widget` is the
      descriptor's `type` property. */
  datatype FieldProps = FieldProps(
    name: string,
    widget: string,
    title: string,
    description: string,
    placeholder: Option<string>,
    optional: bool,
    field: Option<Field>,
    options: Option<seq<FormOption>>)

  datatype FormProps = FormProps(fields: seq<FieldProps>)

  /** A settings record keyed by parameter id, as its entries in property
      enumeration order. A record built from a JavaScript object never
      repeats a key (`DistinctKeys`); the operations below do not need that,
      and for a record that does repeat one, the first entry is the one read. */
  type SettingsRecord = seq<(string, FieldSettings)>

  ghost predicate DistinctKeys(record: SettingsRecord) {
    forall i, j :: 0 <= i < j < |record| ==> record[i].0 != record[j].0
  }

  /** `record[key]`: the first entry stored under `key`, if any; for a
      record with distinct keys, exactly the value stored under `key`. */
  function Lookup(record: SettingsRecord, key: string): (o: Option<FieldSettings>)
    ensures o.Some? ==> (key, o.value) in record
    ensures o.None? ==> forall i :: 0 <= i < |record| ==> record[i].0 != key
    ensures o.Some? ==> exists i ::
      && 0 <= i < |record|
      && record[i] == (key, o.value)
      && forall j :: 0 <= j < i ==> record[j].0 != key
    ensures DistinctKeys(record) ==> forall i :: 0 <= i < |record| && record[i].0 == key ==> o == Some(record[i].1)
  {
    if record == [] then None
    else if record[0].0 == key then Some(record[0].1)
    else
      var o := Lookup(record[1..], key);
      assert forall i :: 1 <= i < |record| ==> record[i] == record[1..][i - 1];
      if o.Some? then
        var i :| && 0 <= i < |record[1..]|
                 && record[1..][i] == (key, o.value)
                 && forall j :: 0 <= j < i ==> record[1..][j].0 != key;
        assert record[i + 1] == (key, o.value);
        o
      else o
  }

  /** `Object.values(record)`. */
  function RecordValues(record: SettingsRecord): seq<FieldSettings> {
    seq(|record|, i requires 0 <= i < |record| => record[i].1)
  }

  /** JavaScript truthiness of an optional string. */
  predicate Truthy(o: Option<string>) {
    o.Some? && o.value != ""
  }
}
