# Writeback-action form builder, modelled in Dafny

This project models the helpers that turn the parameters of a writeback
action, and the per-field settings an editor stores for them, into two things.
The first is the list of form-field descriptors that the action form renders.
The second is the validation schema the form library checks input against.
The source is `frontend/src/metabase/actions/components/ActionForm/utils.ts`.

- `action_types.dfy` (module `ActionTypes`) holds the records: parameters,
  field settings, field descriptors and options, and the settings record keyed
  by parameter id.
- `form_field.dfy` (module `FormField`) models the field mapper
  `getFormField` and its helpers. These are the input-type-to-widget table,
  the options helpers and the title fallback chain.
- `form.dfy` (module `Form`) models the form assembler `getForm`. It sorts
  the caller's parameter array in place, maps each parameter through the
  field mapper and keeps the fields that were produced.
- `validation_schema.dfy` (module `ValidationSchema`) models
  `getFieldValidationType` and `getFormValidationSchema`. The schema is a
  descriptor map from field id to rule, where a rule is a kind, a
  required-or-nullable policy, an optional default and an optional transform.

Three helpers from elsewhere in the application are parameters of the model:
- the editability test `isEditableField` is `isEditable`;
- the emptiness test `isEmpty` is `isEmpty`;
- the comparator returned by `sortActionParams` is `cmp`.

The comparator must meet the consistency that `Array.prototype.sort` asks of
a comparator.

JavaScript truthiness is written out. In the `||` tests of the title chain,
an optional string counts as present only when it is non-empty. The `??`
defaults are different: `description ?? ""` keeps an empty description. A missing `required` behaves as `false`, and
missing `valueOptions` behave as the empty list.

The descriptor's `type` property is called `widget`, because `type` is a
Dafny keyword.

## Model

| member | source | states |
|---|---|---|
| `FormField.GetOptionsFromArray` | frontend/src/metabase/actions/components/ActionForm/utils.ts:23-25 | one option per value, in order; option i is named and valued by value i |
| `FormField.OptionsFromArrayRoundTrip` | frontend/src/metabase/actions/components/ActionForm/utils.ts:23-25 | each configured value becomes one option whose name and value are that value, in order; reading names or values back gives the list |
| `FormField.InputTypeHasOptions` | frontend/src/metabase/actions/components/ActionForm/utils.ts:27-28 | a true result names an input type that the widget table maps to a widget of the same name; `ChoiceWidgetIffOptions` shows it holds exactly for `select` and `radio` |
| `FormField.WidgetType` | frontend/src/metabase/actions/components/ActionForm/utils.ts:32-43 | the widget is always one the table can produce; a known input type gets its table image; a missing or unknown input type gets `"text"` |
| `FormField.ChoiceWidgetIffOptions` | frontend/src/metabase/actions/components/ActionForm/utils.ts:27-43 | the widget is `select` or `radio` exactly when the input type carries options |
| `FormField.GetSampleOptions` | frontend/src/metabase/actions/components/ActionForm/utils.ts:45-49 | three options, each named by its value; the values are 1, 2, 3 for a `"number"` field and non-empty text labels otherwise |
| `FormField.FirstTruthy` | frontend/src/metabase/actions/components/ActionForm/utils.ts:65-70 | reference reading of a JavaScript or-chain: the result is the first truthy candidate, and the last operand exactly when no candidate is truthy; it is non-empty when any candidate is truthy |
| `FormField.Title` | frontend/src/metabase/actions/components/ActionForm/utils.ts:65-70 | the title is the first truthy one of settings title, settings name, parameter display-name and parameter name, else the parameter id; it is non-empty when the id is |
| `FormField.GetFormField` | frontend/src/metabase/actions/components/ActionForm/utils.ts:51-84 | no descriptor exactly when a backing field is set and not editable; otherwise the name is the parameter id; the widget comes from the table; the title follows the fallback chain; `optional` is `!required`; description defaults to `""`; placeholder and field are copied; options are present exactly for `select`/`radio` and are never empty |
| `FormField.GetFormFieldOptions` | frontend/src/metabase/actions/components/ActionForm/utils.ts:77-81 | the options of a choice field are the configured values in order when there are any; otherwise they are exactly the sample options: three, each named by its value, 1, 2, 3 for a `"number"` field and non-empty text labels otherwise |
| `ActionTypes.Lookup` | frontend/src/metabase/actions/components/ActionForm/utils.ts:95 | a found entry is the first entry stored under the key; nothing is found only when no entry has the key; when keys are distinct, the entry found is exactly the one stored under the key |
| `Form.SettingsFor` | frontend/src/metabase/actions/components/ActionForm/utils.ts:95 | a parameter gets the settings stored under its id, or the empty settings `{}` when there are none |
| `Form.SortParameters` | frontend/src/metabase/actions/components/ActionForm/utils.ts:90-92 | the array is reordered in place; the result is ordered by the comparator and is a permutation of the input |
| `Form.Compact` | frontend/src/metabase/actions/components/ActionForm/utils.ts:96 | `filter(Boolean)` never lengthens the list; it keeps every element exactly when all are present |
| `Form.CompactAppend` | frontend/src/metabase/actions/components/ActionForm/utils.ts:96 | filtering a concatenation is the concatenation of the filtered parts, so order is kept |
| `Form.CompactMembership` | frontend/src/metabase/actions/components/ActionForm/utils.ts:96 | a value survives the filter exactly when it was present |
| `Form.FormFields` | frontend/src/metabase/actions/components/ActionForm/utils.ts:93-96 | the mapped and filtered fields never outnumber the parameters, and match them in number exactly when the mapper keeps every parameter |
| `Form.GetForm` | frontend/src/metabase/actions/components/ActionForm/utils.ts:86-98 | the caller's array ends sorted by the comparator and is a permutation of the original; the fields are those mapped from the sorted parameters, omitted ones dropped |
| `Form.FormFieldsAppend` | frontend/src/metabase/actions/components/ActionForm/utils.ts:93-97 | the fields of two parameter lists joined are the fields of the first followed by those of the second, so parameter order is kept |
| `Form.FormFieldsSingle` | frontend/src/metabase/actions/components/ActionForm/utils.ts:95-96 | one parameter gives the mapper's field, or no field when the mapper omits it, and never more than one |
| `Form.FormFieldsOrigin` | frontend/src/metabase/actions/components/ActionForm/utils.ts:93-97 | every field was produced from some parameter of the list, with its settings or `{}`, and is named by that parameter's id |
| `Form.FormFieldsComplete` | frontend/src/metabase/actions/components/ActionForm/utils.ts:93-97 | every field the mapper produces is in the form; no parameter is lost exactly when none has a non-editable backing field |
| `ValidationSchema.GetFieldValidationType` | frontend/src/metabase/actions/components/ActionForm/utils.ts:100-116 | the kind is number exactly for `number` and boolean exactly for `boolean`; the empty-to-null transform is present exactly for `date`, `datetime` and `time`, on a string kind; neither presence nor default is set |
| `ValidationSchema.ApplyTransform` | frontend/src/metabase/actions/components/ActionForm/utils.ts:109-112 | the date transform keeps the value when the original input has a length and gives null otherwise; no transform keeps the value |
| `ValidationSchema.TemporalInputNeverEmpty` | frontend/src/metabase/actions/components/ActionForm/utils.ts:106-112 | for date and time inputs an empty string never reaches validation, and a missing input stays null |
| `ValidationSchema.FieldRule` | frontend/src/metabase/actions/components/ActionForm/utils.ts:129-142 | the rule keeps the kind and transform of the input type; it is required with the fixed message "This field is required" when `required` is set and nullable otherwise; it has a default exactly when the default is not empty, and then it is that default |
| `ValidationSchema.FindParameter` | frontend/src/metabase/actions/components/ActionForm/utils.ts:127 | nothing is found exactly when no parameter has the id; otherwise the first parameter with that id is found |
| `ValidationSchema.PresentSettings` | frontend/src/metabase/actions/components/ActionForm/utils.ts:124-128 | the filter never lengthens the list of settings |
| `ValidationSchema.PresentSettingsMembership` | frontend/src/metabase/actions/components/ActionForm/utils.ts:124-128 | the filter keeps a setting exactly when it is in the list and some parameter has its id |
| `ValidationSchema.PresentSettingsSnoc` | frontend/src/metabase/actions/components/ActionForm/utils.ts:124-128 | filtering one more setting appends it exactly when some parameter has its id |
| `ValidationSchema.FromEntriesKeys` | frontend/src/metabase/actions/components/ActionForm/utils.ts:144 | the keys of `Object.fromEntries` are exactly the keys of the entries |
| `ValidationSchema.FromEntriesLastWins` | frontend/src/metabase/actions/components/ActionForm/utils.ts:144 | an entry that no later entry with the same key overrides gives the value its key holds |
| `ValidationSchema.BuildSchemaSnoc` | frontend/src/metabase/actions/components/ActionForm/utils.ts:124-144 | one more settings value adds or replaces the rule under its id when a parameter has that id, and otherwise leaves the schema unchanged |
| `ValidationSchema.BuildSchemaKeys` | frontend/src/metabase/actions/components/ActionForm/utils.ts:124-144 | the schema keys are exactly the ids of settings values that match a parameter id |
| `ValidationSchema.BuildSchemaLastWins` | frontend/src/metabase/actions/components/ActionForm/utils.ts:124-144 | the rule under a schema key is built from the last settings value with that id |
| `ValidationSchema.GetFormValidationSchema` | frontend/src/metabase/actions/components/ActionForm/utils.ts:118-145 | over the settings record: the keys are the setting ids that match a parameter id, and each rule is built from the last record entry whose setting has that id |

## Left out

- The form library's runtime behaviour is not modelled: casting, validation
  and error collection. The model keeps only the descriptor the code builds,
  so that required fields reject empty input is not stated.
- Translation of the fixed strings is not modelled. The sample labels and the
  "required" message are the untranslated English constants.
- The bodies of `isEditableField`, `isEmpty` and `sortActionParams` live in
  other files and are not part of this model. They are parameters here.
- `Form.SortParameters` does not model the engine's own sorting algorithm.
  It is an insertion sort that gives a permutation ordered by a consistent
  comparator. `Array.prototype.sort` is also stable (since ECMAScript 2019):
  parameters the comparator ties keep their input order. The model
  deliberately does not state stability. An inconsistent comparator, for
  which the JavaScript result is implementation-defined, is excluded by the
  precondition.
- `FormField.WidgetType`: an input type naming a property inherited from
  `Object.prototype` (such as `"toString"` or `"constructor"`) is treated as
  unknown and gives `"text"`. In JavaScript the lookup finds the inherited
  function. Such input types are not modelled.
- `Form.SettingsFor`: a parameter id naming an inherited `Object.prototype`
  property is treated as absent and gets `{}`. In JavaScript
  `fieldSettings[id]` finds the inherited function, so the title falls back
  to that function's `name`, for example `"toString"` or `"Object"`. Such ids
  are not modelled.
- `ActionTypes.Lookup`: only the record's own entries are searched. Keys of
  inherited `Object.prototype` properties are not modelled.
- Numbers are whole numbers. JavaScript floating-point values are not
  modelled.
- `FormField.GetFormField` sets `options` on a freshly built descriptor. This
  is a record update, because no other reference can observe the descriptor.
- The TypeScript default arguments (`= {}`) are not modelled. Callers pass
  the empty record `[]` explicitly.
- The order of the settings record's entries is taken as the object's
  property enumeration order. That order decides which setting wins when two
  share an id.
- The final wrapping of the rules in an object schema is not modelled. The
  schema is the map of per-field rules.
- TypeScript type-only declarations and the React rendering of the
  descriptors are not modelled.
