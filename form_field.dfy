/** The field mapper: from one action parameter and its settings to the
    descriptor of one form field, or to nothing when the backing field may
    not be edited. */
module FormField {
  import opened ActionTypes

  /** `options.map(o => ({ name: o, value: o }))`: one option per value, in
      order, named and valued by it. */
  function GetOptionsFromArray(options: seq<Value>): (r: seq<FormOption>)
    ensures |r| == |options|
    ensures forall i :: 0 <= i < |r| ==> r[i].name == options[i] && r[i].value == options[i]
  {
    seq(|options|, i requires 0 <= i < |options| => FormOption(options[i], options[i]))
  }

  function OptionNames(options: seq<FormOption>): seq<Value> {
    seq(|options|, i requires 0 <= i < |options| => options[i].name)
  }

  function OptionValues(options: seq<FormOption>): seq<Value> {
    seq(|options|, i requires 0 <= i < |options| => options[i].value)
  }

  /** Reading the names or the values back out of the options built from a
      list gives that list, in order. */
  lemma OptionsFromArrayRoundTrip(xs: seq<Value>)
    ensures OptionNames(GetOptionsFromArray(xs)) == xs
    ensures OptionValues(GetOptionsFromArray(xs)) == xs
  {
  }

  /** Only the choice input types carry an options list; each of them is an
      input type of the widget table, which shows it as a widget of the
      same name. */
  function InputTypeHasOptions(inputType: Option<string>): (b: bool)
    ensures b ==> inputType.Some? && inputType.value in FIELD_PROPS_TYPE_MAP
    ensures b ==> FIELD_PROPS_TYPE_MAP[inputType.value] == inputType.value
  {
    inputType == Some("select") || inputType == Some("radio")
  }

  /** The fixed table from input setting type to widget kind. */
  const FIELD_PROPS_TYPE_MAP: map<string, string> := map[
    "string" := "text",
    "text" := "textarea",
    "date" := "date",
    "datetime" := "datetime-local",
    "time" := "time",
    "number" := "number",
    "boolean" := "boolean",
    "category" := "category",
    "select" := "select",
    "radio" := "radio"
  ]

  /** `fieldPropsTypeMap[inputType] ?? "text"`: the widget is always one the
      table can produce; a missing or unknown input type gives `"text"`. */
  function WidgetType(inputType: Option<string>): (w: string)
    ensures w in FIELD_PROPS_TYPE_MAP.Values
    ensures inputType.Some? && inputType.value in FIELD_PROPS_TYPE_MAP ==> w == FIELD_PROPS_TYPE_MAP[inputType.value]
    ensures inputType.None? || inputType.value !in FIELD_PROPS_TYPE_MAP ==> w == "text"
  {
    assert FIELD_PROPS_TYPE_MAP["string"] == "text";
    if inputType.Some? && inputType.value in FIELD_PROPS_TYPE_MAP then FIELD_PROPS_TYPE_MAP[inputType.value] else "text"
  }

  /** A choice widget is chosen exactly for the input types that carry
      options, so an options list never reaches a widget that cannot show it. */
  lemma ChoiceWidgetIffOptions(inputType: Option<string>)
    ensures WidgetType(inputType) in {"select", "radio"} <==> InputTypeHasOptions(inputType)
  {
  }

  /** Three illustrative choices: the numbers 1, 2, 3 for a numeric field,
      three text labels otherwise. */
  function GetSampleOptions(fieldType: Option<string>): (r: seq<FormOption>)
    ensures |r| == 3
    ensures OptionNames(r) == OptionValues(r)
    ensures fieldType == Some("number") ==> OptionValues(r) == [Num(1), Num(2), Num(3)]
    ensures fieldType != Some("number") ==> forall o :: o in r ==> o.value.Str? && o.value.s != ""
  {
    if fieldType == Some("number") then GetOptionsFromArray([Num(1), Num(2), Num(3)])
    else GetOptionsFromArray([Str("Option One"), Str("Option Two"), Str("Option Three")])
  }

  /** Reference reading of a JavaScript `||` chain over optional strings:
      the first truthy candidate, else the last operand `fallback`. */
  function FirstTruthy(candidates: seq<Option<string>>, fallback: string): (r: string)
    ensures r == fallback || exists i :: 0 <= i < |candidates| && candidates[i] == Some(r) && r != ""
    ensures (exists i :: 0 <= i < |candidates| && Truthy(candidates[i])) ==> r != ""
    ensures forall i ::
      (&& 0 <= i < |candidates|
       && Truthy(candidates[i])
       && forall j :: 0 <= j < i ==> !Truthy(candidates[j]))
      ==> r == candidates[i].value
    ensures (forall i :: 0 <= i < |candidates| ==> !Truthy(candidates[i])) ==> r == fallback
  {
    if candidates == [] then fallback
    else if Truthy(candidates[0]) then candidates[0].value
    else
      var r := FirstTruthy(candidates[1..], fallback);
      assert forall i :: 1 <= i < |candidates| ==> candidates[i] == candidates[1..][i - 1];
      r
  }

  /** The title chain `title || name || display-name || name || id`. */
  function Title(p: Parameter, s: FieldSettings): (t: string)
    ensures t == FirstTruthy([s.title, s.name, p.displayName, p.name], p.id)
    ensures p.id != "" ==> t != ""
  {
    var cs := [s.title, s.name, p.displayName, p.name];
    assert cs[1..][1..] == [p.displayName, p.name];
    assert cs[1..][1..][1..][1..] == [];
    assert FirstTruthy(cs[1..][1..], p.id) ==
      if Truthy(p.displayName) then p.displayName.value else FirstTruthy(cs[1..][1..][1..], p.id);
    if Truthy(s.title) then s.title.value
    else if Truthy(s.name) then s.name.value
    else if Truthy(p.displayName) then p.displayName.value
    else if Truthy(p.name) then p.name.value
    else p.id
  }

  /** `getFormField`: nothing when the settings name a backing field that
      `isEditable` rejects; otherwise the descriptor, named by the parameter
      id, to which the options are added afterwards for choice widgets. */
  function GetFormField(p: Parameter, s: FieldSettings, isEditable: (Field, Parameter) -> bool): (r: Option<FieldProps>)
    ensures r.None? <==> s.field.Some? && !isEditable(s.field.value, p)
    ensures r.Some? ==> r.value.name == p.id && r.value.field == s.field
    ensures r.Some? ==> r.value.widget == WidgetType(s.inputType)
    ensures r.Some? ==> r.value.title == FirstTruthy([s.title, s.name, p.displayName, p.name], p.id)
    ensures r.Some? ==> r.value.optional == !s.required && r.value.placeholder == s.placeholder
    ensures r.Some? ==> r.value.description == if s.description.Some? then s.description.value else ""
    ensures r.Some? ==> (r.value.options.Some? <==> InputTypeHasOptions(s.inputType))
    ensures r.Some? && r.value.options.Some? ==> |r.value.options.value| > 0
  {
    if s.field.Some? && !isEditable(s.field.value, p) then None
    else
      var props := FieldProps(
        p.id,
        WidgetType(s.inputType),
        Title(p, s),
        if s.description.Some? then s.description.value else "",
        s.placeholder,
        !s.required,
        s.field,
        None);
      if InputTypeHasOptions(s.inputType) then
        Some(props.(options := Some(
          if |s.valueOptions| > 0 then GetOptionsFromArray(s.valueOptions) else GetSampleOptions(s.fieldType))))
      else Some(props)
  }

  /** Where the options of a choice field come from: the configured values,
      one option per value in order, or else the sample options. */
  lemma GetFormFieldOptions(p: Parameter, s: FieldSettings, isEditable: (Field, Parameter) -> bool)
    requires GetFormField(p, s, isEditable).Some?
    requires InputTypeHasOptions(s.inputType)
    ensures var opts := GetFormField(p, s, isEditable).value.options.value;
      && (|s.valueOptions| > 0 ==> OptionNames(opts) == s.valueOptions && OptionValues(opts) == s.valueOptions)
      && (|s.valueOptions| == 0 ==> opts == GetSampleOptions(s.fieldType))
  {
    OptionsFromArrayRoundTrip(s.valueOptions);
  }
}
