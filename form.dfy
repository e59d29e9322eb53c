/** The form assembler: sorts the caller's parameter array in place with the
    ordering comparator, maps every parameter through the field mapper with
    its settings (or `{}`), and keeps the fields that were produced. */
module Form {
  import opened ActionTypes
  import opened FormField

  /** What `Array.prototype.sort` asks of a comparator: the sign flips when
      the arguments are swapped, and "not after" is transitive. */
  ghost predicate ConsistentComparator(cmp: (Parameter, Parameter) -> int) {
    && (forall x, y :: cmp(x, y) < 0 <==> cmp(y, x) > 0)
    && (forall x, y, z :: NotAfter(cmp, x, y) && NotAfter(cmp, y, z) ==> NotAfter(cmp, x, z))
  }

  /** `x` may stay before `y`. */
  ghost predicate NotAfter(cmp: (Parameter, Parameter) -> int, x: Parameter, y: Parameter) {
    cmp(x, y) <= 0
  }

  ghost predicate SortedBy(s: seq<Parameter>, cmp: (Parameter, Parameter) -> int) {
    forall i, j :: 0 <= i < j < |s| ==> cmp(s[i], s[j]) <= 0
  }

  /** `parameters.sort(cmp)`: reorders the array in place into an order the
      comparator accepts, keeping exactly the same elements. Nothing is
      promised about the relative order of parameters the comparator ties. */
  method SortParameters(a: array<Parameter>, cmp: (Parameter, Parameter) -> int)
    requires ConsistentComparator(cmp)
    modifies a
    ensures SortedBy(a[..], cmp)
    ensures multiset(a[..]) == old(multiset(a[..]))
  {
    var i := 0;
    while i < a.Length
      invariant 0 <= i <= a.Length
      invariant forall k, l :: 0 <= k < l < i ==> cmp(a[k], a[l]) <= 0
      invariant multiset(a[..]) == old(multiset(a[..]))
    {
      InsertIntoPrefix(a, i, cmp);
      i := i + 1;
    }
  }

  /** One insertion-sort step: moves `a[i]` left past the elements that
      must come after it, so that `a[..i + 1]` becomes ordered. */
  method InsertIntoPrefix(a: array<Parameter>, i: nat, cmp: (Parameter, Parameter) -> int)
    requires ConsistentComparator(cmp)
    requires i < a.Length
    requires forall k, l :: 0 <= k < l < i ==> cmp(a[k], a[l]) <= 0
    modifies a
    ensures forall k, l :: 0 <= k < l <= i ==> cmp(a[k], a[l]) <= 0
    ensures multiset(a[..]) == old(multiset(a[..]))
    ensures a[i + 1..] == old(a[i + 1..])
  {
    var j := i;
    while j > 0 && cmp(a[j - 1], a[j]) > 0
      invariant 0 <= j <= i
      invariant forall k, l :: 0 <= k < l <= i && k != j && l != j ==> cmp(a[k], a[l]) <= 0
      invariant forall l :: j < l <= i ==> cmp(a[j], a[l]) <= 0
      invariant multiset(a[..]) == old(multiset(a[..]))
      invariant forall m :: i < m < a.Length ==> a[m] == old(a[m])
    {
      Swap(a, j - 1, j);
      j := j - 1;
    }
    forall k | 0 <= k < j
      ensures cmp(a[k], a[j]) <= 0
    {
      if k < j - 1 {
        assert NotAfter(cmp, a[k], a[j - 1]) && NotAfter(cmp, a[j - 1], a[j]);
      }
    }
  }

  method Swap(a: array<Parameter>, i: nat, j: nat)
    requires i < j < a.Length
    modifies a
    ensures a[i] == old(a[j]) && a[j] == old(a[i])
    ensures forall m :: 0 <= m < a.Length && m != i && m != j ==> a[m] == old(a[m])
    ensures multiset(a[..]) == old(multiset(a[..]))
  {
    a[i], a[j] := a[j], a[i];
  }

  /** `fieldSettings[param.id] ?? {}`. */
  function SettingsFor(record: SettingsRecord, id: string): (s: FieldSettings)
    ensures Lookup(record, id).Some? ==> (id, s) in record
    ensures Lookup(record, id).None? ==> s == EMPTY_SETTINGS
  {
    match Lookup(record, id)
    case Some(s) => s
    case None => EMPTY_SETTINGS
  }

  /** `.filter(Boolean)` over mapped fields: keeps the present ones in order.
      Nothing is lost exactly when every element is present. */
  function Compact<T>(xs: seq<Option<T>>): (r: seq<T>)
    ensures |r| <= |xs|
    ensures |r| == |xs| <==> forall i :: 0 <= i < |xs| ==> xs[i].Some?
  {
    if xs == [] then []
    else
      var rest := Compact(xs[1..]);
      assert forall i :: 1 <= i < |xs| ==> xs[1..][i - 1] == xs[i];
      if xs[0].Some? then [xs[0].value] + rest else rest
  }

  /** Filtering a concatenation filters each part and keeps their order;
      with `Compact([Some(v)]) == [v]` and `Compact([None]) == []` this
      determines `Compact` completely. */
  lemma {:induction false} CompactAppend<T>(a: seq<Option<T>>, b: seq<Option<T>>)
    ensures Compact(a + b) == Compact(a) + Compact(b)
  {
    if a == [] {
      assert a + b == b;
    } else {
      assert (a + b)[1..] == a[1..] + b;
      CompactAppend(a[1..], b);
    }
  }

  /** A value is kept exactly when it was present. */
  lemma {:induction false} CompactMembership<T>(xs: seq<Option<T>>, y: T)
    ensures y in Compact(xs) <==> Some(y) in xs
  {
    if xs != [] {
      CompactMembership(xs[1..], y);
      assert xs == [xs[0]] + xs[1..];
    }
  }

  /** Each parameter through the field mapper with its settings. */
  function MappedFields(params: seq<Parameter>, record: SettingsRecord, isEditable: (Field, Parameter) -> bool): seq<Option<FieldProps>> {
    seq(|params|, i requires 0 <= i < |params| => GetFormField(params[i], SettingsFor(record, params[i].id), isEditable))
  }

  /** The body of the `fields` property: mapped fields, omitted ones dropped.
      There are never more fields than parameters, and exactly as many when
      the mapper keeps every parameter. */
  function FormFields(params: seq<Parameter>, record: SettingsRecord, isEditable: (Field, Parameter) -> bool): (r: seq<FieldProps>)
    ensures |r| <= |params|
    ensures |r| == |params| <==>
      forall i :: 0 <= i < |params| ==> GetFormField(params[i], SettingsFor(record, params[i].id), isEditable).Some?
  {
    var m := MappedFields(params, record, isEditable);
    assert forall i :: 0 <= i < |params| ==> m[i] == GetFormField(params[i], SettingsFor(record, params[i].id), isEditable);
    Compact(m)
  }

  /** `getForm`: sorts `parameters` in place (the caller sees the new order)
      and returns the fields of the sorted parameters. */
  method GetForm(parameters: array<Parameter>, record: SettingsRecord, cmp: (Parameter, Parameter) -> int,
                 isEditable: (Field, Parameter) -> bool) returns (form: FormProps)
    requires ConsistentComparator(cmp)
    modifies parameters
    ensures SortedBy(parameters[..], cmp)
    ensures multiset(parameters[..]) == old(multiset(parameters[..]))
    ensures form.fields == FormFields(parameters[..], record, isEditable)
  {
    SortParameters(parameters, cmp);
    form := FormProps(FormFields(parameters[..], record, isEditable));
  }

  /** The fields of a concatenation are the fields of the first part
      followed by those of the second: parameter order is kept. */
  lemma FormFieldsAppend(ps: seq<Parameter>, qs: seq<Parameter>, record: SettingsRecord, isEditable: (Field, Parameter) -> bool)
    ensures FormFields(ps + qs, record, isEditable) == FormFields(ps, record, isEditable) + FormFields(qs, record, isEditable)
  {
    assert MappedFields(ps + qs, record, isEditable) == MappedFields(ps, record, isEditable) + MappedFields(qs, record, isEditable);
    CompactAppend(MappedFields(ps, record, isEditable), MappedFields(qs, record, isEditable));
  }

  /** One parameter gives one field, the mapper's, or none when the mapper
      omits it; no parameter gives more than one field. */
  lemma FormFieldsSingle(p: Parameter, record: SettingsRecord, isEditable: (Field, Parameter) -> bool)
    ensures var r := GetFormField(p, SettingsFor(record, p.id), isEditable);
      FormFields([p], record, isEditable) == if r.Some? then [r.value] else []
  {
  }

  /** Every field comes from a parameter of the list, with that parameter's
      settings (or `{}`), and carries that parameter's id as its name. */
  lemma FormFieldsOrigin(params: seq<Parameter>, record: SettingsRecord, isEditable: (Field, Parameter) -> bool, f: FieldProps)
    requires f in FormFields(params, record, isEditable)
    ensures exists i ::
      && 0 <= i < |params|
      && GetFormField(params[i], SettingsFor(record, params[i].id), isEditable) == Some(f)
      && f.name == params[i].id
  {
    var m := MappedFields(params, record, isEditable);
    CompactMembership(m, f);
    var i :| 0 <= i < |m| && m[i] == Some(f);
    assert GetFormField(params[i], SettingsFor(record, params[i].id), isEditable) == Some(f);
  }

  /** A field is produced for every parameter the mapper keeps; the form
      loses no parameter exactly when none has a non-editable backing field. */
  lemma FormFieldsComplete(params: seq<Parameter>, record: SettingsRecord, isEditable: (Field, Parameter) -> bool)
    ensures forall i :: 0 <= i < |params| && GetFormField(params[i], SettingsFor(record, params[i].id), isEditable).Some? ==>
      GetFormField(params[i], SettingsFor(record, params[i].id), isEditable).value in FormFields(params, record, isEditable)
    ensures |FormFields(params, record, isEditable)| == |params| <==>
      forall i :: 0 <= i < |params| ==>
        var s := SettingsFor(record, params[i].id); s.field.None? || isEditable(s.field.value, params[i])
  {
    var m := MappedFields(params, record, isEditable);
    assert forall i :: 0 <= i < |params| ==> m[i] == GetFormField(params[i], SettingsFor(record, params[i].id), isEditable);
    forall i | 0 <= i < |params| && m[i].Some?
      ensures m[i].value in Compact(m)
    {
      CompactMembership(m, m[i].value);
    }
  }
}
