/** The per-entity validator: resolves the fields of an entity type and bundle, runs each
    field's pre-processors, type check and validators, collects the errors per field, and ends
    with TRUE, FALSE (silent) or an exception. */
module EntityValidation {
  import opened Values
  import opened Strings
  import opened OrderedMaps
  import opened DrupalHost
  import opened ErrorStore
  import opened EntityRules
  import opened Resolution

  /** The entity behind `entity_metadata_wrapper`: its property values, and the log of every
      `set` made through the wrapper. */
  class EntityWrapper {
    var props: map<string, Value>
    var writes: seq<(string, Value)>

    constructor (props: map<string, Value>)
      ensures this.props == props && writes == []
    {
      this.props := props;
      writes := [];
    }

    method Set(p: string, v: Value)
      modifies this
      ensures props == old(props)[p := v]
      ensures writes == old(writes) + [(p, v)]
    {
      props := props[p := v];
      writes := writes + [(p, v)];
    }
  }

  /** What `getErrors` returns: the raw store, or the squashed text. */
  datatype ErrorReport = Raw(store: Store) | Squashed(text: string)

  class EntityValidateBase {
    var entityType: string
    var bundle: string
    /** The `setError` calls since the errors were last cleared, in call order. */
    var calls: seq<Recorded>

    /** `$this->errors`: the per-field array those calls built. */
    function Errors(): Store
      reads this
    {
      AddAll(Empty(), calls)
    }

    /** The plugin definition supplies the entity type and the bundle. */
    constructor (entityType: string, bundle: string)
      ensures this.entityType == entityType && this.bundle == bundle && calls == []
      ensures Errors() == Empty()
    {
      this.entityType := entityType;
      this.bundle := bundle;
      calls := [];
    }

    method SetBundle(bundle: string)
      modifies this`bundle
      ensures GetBundle() == bundle
    {
      this.bundle := bundle;
    }

    function GetBundle(): string
      reads this
    {
      bundle
    }

    method SetEntityType(entityType: string)
      modifies this`entityType
      ensures GetEntityType() == entityType
    {
      this.entityType := entityType;
    }

    function GetEntityType(): string
      reads this
    {
      entityType
    }

    /** The rule list of the entity type and bundle: the label key and every required or image
        instance, in that order. */
    method GetFieldsInfo(host: Host) returns (fields: FieldsInfo)
      ensures fields == FieldsInfoOf(host, host.labelKey(entityType), host.instances(entityType, bundle))
      ensures DistinctKeys(fields)
    {
      fields := Empty();
      var labelKey := host.labelKey(entityType);
      if !EmptyString(labelKey) {
        fields := Put(fields, labelKey, FieldInfo(None, [], [IsNotEmptyRule]));
      }
      var instancesInfo := host.instances(GetEntityType(), GetBundle());
      for i := 0 to |instancesInfo|
        invariant fields == FieldsInfoOf(host, labelKey, instancesInfo[..i])
      {
        var instanceInfo := instancesInfo[i];
        if instanceInfo.required {
          fields := AppendValidator(fields, instanceInfo.fieldName, IsNotEmptyRule);
        }
        if IsImageField(host, instanceInfo.fieldName) {
          fields := AppendValidator(fields, instanceInfo.fieldName, ValidateImageFieldRule);
        }
        assert instancesInfo[..i + 1][..i] == instancesInfo[..i];
      }
      assert instancesInfo[..|instancesInfo|] == instancesInfo;
      FieldsInfoDistinct(host, labelKey, instancesInfo);
    }

    /** Validates `record` against `fieldsInfo`, the array `getFieldsInfo` returns (this class's
        `GetFieldsInfo`, or a subclass's override). Errors are cleared first; with no field the
        answer is TRUE at once; otherwise every field runs, and a property the entity lacks makes
        the wrapper throw at its first read. */
    method Validate(record: EntityWrapper, silent: bool, fieldsInfo: FieldsInfo, host: Host) returns (outcome: Outcome<bool>)
      requires SettingsOk(host.instances(entityType, bundle))
      modifies this`calls, record
      ensures record.props == old(record.props)
      ensures var n := StopIndex(host, fieldsInfo, old(record.props), 0);
        && calls == PassRecords(host, old(entityType), old(bundle), fieldsInfo, old(record.props), n)
        && record.writes == old(record.writes) + PassWrites(host, fieldsInfo, old(record.props), n)
        && outcome == if n < |fieldsInfo.keys| then Threw(UnknownProperty(PropertyOf(fieldsInfo.keys[n], At(fieldsInfo, n))))
                      else Decide(host.render, Errors(), silent)
      ensures fieldsInfo.keys == [] ==> outcome == Returned(true) && Errors() == Empty() && record.writes == old(record.writes)
    {
      ClearErrors();
      if fieldsInfo.keys == [] {
        return Returned(true);
      }
      var stop := RunFields(record, fieldsInfo, host);
      if stop < |fieldsInfo.keys| {
        return Threw(UnknownProperty(PropertyOf(fieldsInfo.keys[stop], At(fieldsInfo, stop))));
      }
      var report := GetErrors(true, host.render);
      var text := report.text;
      if EmptyString(text) {
        return Returned(true);
      }
      if silent {
        return Returned(false);
      }
      var params := map["@errors" := text];
      return Threw(host.render(FailureTemplate, params));
    }

    /** The loop of `validate`: field by field in order, up to the first field whose property the
        entity lacks and the body reads, whose index is returned (the number of fields when there
        is none). */
    method RunFields(record: EntityWrapper, fieldsInfo: FieldsInfo, host: Host) returns (stop: nat)
      requires SettingsOk(host.instances(entityType, bundle))
      modifies this`calls, record
      ensures record.props == old(record.props)
      ensures stop == StopIndex(host, fieldsInfo, old(record.props), 0)
      ensures calls == old(calls) + PassRecords(host, old(entityType), old(bundle), fieldsInfo, old(record.props), stop)
      ensures record.writes == old(record.writes) + PassWrites(host, fieldsInfo, old(record.props), stop)
    {
      ghost var n := StopIndex(host, fieldsInfo, record.props, 0);
      for i := 0 to |fieldsInfo.keys|
        invariant record.props == old(record.props) && n >= i
        invariant calls == old(calls) + PassRecords(host, entityType, bundle, fieldsInfo, record.props, i)
        invariant record.writes == old(record.writes) + PassWrites(host, fieldsInfo, record.props, i)
      {
        var blocked := RunField(record, fieldsInfo, i, host, n, old(calls), old(record.writes));
        if blocked {
          return i;
        }
      }
      return |fieldsInfo.keys|;
    }

    /** Field `i` of `fieldsInfo`: TRUE, with nothing done, when the wrapper throws on it. */
    method RunField(record: EntityWrapper, fieldsInfo: FieldsInfo, i: nat, host: Host, ghost n: nat,
                    ghost c0: seq<Recorded>, ghost w0: seq<(string, Value)>)
      returns (blocked: bool)
      requires i < |fieldsInfo.keys|
      requires SettingsOk(host.instances(entityType, bundle))
      requires n == StopIndex(host, fieldsInfo, record.props, 0) && n >= i
      requires calls == c0 + PassRecords(host, entityType, bundle, fieldsInfo, record.props, i)
      requires record.writes == w0 + PassWrites(host, fieldsInfo, record.props, i)
      modifies this`calls, record
      ensures record.props == old(record.props)
      ensures blocked ==> n == i && calls == old(calls) && record.writes == old(record.writes)
      ensures !blocked ==> n >= i + 1
      ensures !blocked ==> calls == c0 + PassRecords(host, entityType, bundle, fieldsInfo, record.props, i + 1)
      ensures !blocked ==> record.writes == w0 + PassWrites(host, fieldsInfo, record.props, i + 1)
    {
      if Blocked(host, fieldsInfo, record.props, i) {
        StopIndexAt(host, fieldsInfo, record.props, i);
        return true;
      }
      StopIndexPast(host, fieldsInfo, record.props, i);
      ValidateField(record, fieldsInfo.keys[i], At(fieldsInfo, i), host);
      LogStep(c0, FieldChunks(host, entityType, bundle, fieldsInfo, record.props), i);
      LogStep(w0, FieldWriteChunks(host, fieldsInfo, record.props), i);
      return false;
    }

    /** The body of `validate`'s loop for one field whose property the entity has, or whose
        property the body never reads: pre-processors with write-back, the type check of a
        truthy value, then the validators. */
    method ValidateField(record: EntityWrapper, fieldName: string, info: FieldInfo, host: Host)
      requires PropertyOf(fieldName, info) in record.props || !Touches(host, fieldName, info)
      requires SettingsOk(host.instances(entityType, bundle))
      modifies this`calls, record
      ensures record.props == old(record.props)
      ensures calls == old(calls) + FieldRecords(host, old(entityType), old(bundle), fieldName, info,
                                                 ValueOf(old(record.props), PropertyOf(fieldName, info)))
      ensures record.writes == old(record.writes) + FieldWrites(host, fieldName, info, ValueOf(old(record.props), PropertyOf(fieldName, info)))
    {
      var property := PropertyOf(fieldName, info);
      ghost var v := ValueOf(record.props, property);
      if info.preprocess != [] {
        InvokeMethods(record, property, info.preprocess, true, host);
      }
      ghost var l2 := calls;
      var fieldTypeInfo := TypeInfoOf(host, fieldName);
      if fieldTypeInfo.propertyType.Some? && Truthy(record.props[property]) {
        IsValidValue(fieldName, record.props[property], fieldTypeInfo.propertyType.value, host);
      }
      ghost var l3 := calls;
      if info.validators != [] {
        InvokeMethods(record, property, info.validators, false, host);
        InvokeWritesShape(host, info.validators, property, v, false);
      }
      FieldPhases(host, entityType, bundle, fieldName, info, v, old(calls), l2, l3, calls);
    }

    /** Runs `methods` in order on the property `property`; with `assignValue`, each result that
        differs from the value read leads to a `set` of the value read, not of the result. */
    method InvokeMethods(record: EntityWrapper, property: string, methods: seq<Rule>, assignValue: bool, host: Host)
      requires property in record.props
      requires SettingsOk(host.instances(entityType, bundle))
      modifies this`calls, record
      ensures record.props == old(record.props)
      ensures calls == old(calls) + InvokeRecords(host, old(entityType), old(bundle), methods, property, old(record.props)[property])
      ensures record.writes == old(record.writes) + InvokeWrites(host, methods, property, old(record.props)[property], assignValue)
    {
      for i := 0 to |methods|
        invariant record.props == old(record.props)
        invariant Logged(calls, old(calls), RuleChunks(host, entityType, bundle, methods, property, record.props[property]), i)
        invariant Logged(record.writes, old(record.writes), WriteChunks(host, methods, property, record.props[property], assignValue), i)
      {
        InvokeAt(record, property, methods, i, assignValue, host, old(calls), old(record.writes));
      }
    }

    /** Round `i` of `invokeMethods`' loop. */
    method InvokeAt(record: EntityWrapper, property: string, methods: seq<Rule>, i: nat, assignValue: bool, host: Host,
                    ghost c0: seq<Recorded>, ghost w0: seq<(string, Value)>)
      requires property in record.props && i < |methods|
      requires SettingsOk(host.instances(entityType, bundle))
      requires Logged(calls, c0, RuleChunks(host, entityType, bundle, methods, property, record.props[property]), i)
      requires Logged(record.writes, w0, WriteChunks(host, methods, property, record.props[property], assignValue), i)
      modifies this`calls, record
      ensures record.props == old(record.props)
      ensures Logged(calls, c0, RuleChunks(host, entityType, bundle, methods, property, record.props[property]), i + 1)
      ensures Logged(record.writes, w0, WriteChunks(host, methods, property, record.props[property], assignValue), i + 1)
    {
      ghost var calls0, writes0 := calls, record.writes;
      InvokeOne(record, property, methods[i], assignValue, host);
      LoggedStep(calls0, c0, RuleChunks(host, entityType, bundle, methods, property, record.props[property]), i);
      LoggedStep(writes0, w0, WriteChunks(host, methods, property, record.props[property], assignValue), i);
    }

    /** One round of `invokeMethods`' loop: the rule runs on the value read, and with
        `assignValue` a result other than that value makes the wrapper set the value read. */
    method InvokeOne(record: EntityWrapper, property: string, rule: Rule, assignValue: bool, host: Host)
      requires property in record.props
      requires SettingsOk(host.instances(entityType, bundle))
      modifies this`calls, record
      ensures record.props == old(record.props)
      ensures calls == old(calls) + RuleRecords(host, entityType, bundle, rule, property, record.props[property])
      ensures record.writes == old(record.writes) + RuleWrite(host, rule, property, record.props[property], assignValue)
    {
      var value := record.props[property];
      var newValue := CallMethod(rule, property, value, host);
      if assignValue && newValue != value {
        record.Set(property, value);
      }
    }

    /** `$this->{$method}($name, $value)`: the rule's errors and its return value. */
    method CallMethod(rule: Rule, name: string, value: Value, host: Host) returns (result: Value)
      requires SettingsOk(host.instances(entityType, bundle))
      modifies this`calls
      ensures calls == old(calls) + RuleRecords(host, entityType, bundle, rule, name, value)
      ensures result == RuleResult(host, rule, name, value)
    {
      match rule
      case IsNotEmptyRule =>
        IsNotEmpty(name, value);
        result := Null;
      case ValidateImageFieldRule =>
        ValidateImageField(name, value, host);
        result := Null;
      case CustomRule(m) =>
        var effect := host.custom(m, name, value);
        ReplayCalls(effect.calls);
        result := effect.result;
    }

    /** The `setError` calls a custom method makes, in order, each with its own field name,
        message and parameters. */
    method ReplayCalls(rs: seq<Recorded>)
      modifies this`calls
      ensures calls == old(calls) + rs
    {
      for j := 0 to |rs|
        invariant calls == old(calls) + rs[..j]
      {
        SetError(rs[j].field, rs[j].message, rs[j].params);
        assert rs[..j + 1] == rs[..j] + [rs[j]];
      }
      assert rs[..|rs|] == rs;
    }

    /** Appends one entry to the field's list, with `@field` set to the field name. */
    method SetError(fieldName: string, message: string, params: map<string, string>)
      modifies this`calls
      ensures calls == old(calls) + [Recorded(fieldName, message, params)]
      ensures Errors() == Add(old(Errors()), Recorded(fieldName, message, params))
    {
      calls := calls + [Recorded(fieldName, message, params)];
      AddAllSnoc(Empty(), old(calls), Recorded(fieldName, message, params));
    }

    /** The raw store, or every entry formatted, field by field and entry by entry, joined with
        "\n\r". */
    method GetErrors(squash: bool, render: (string, map<string, string>) -> string) returns (report: ErrorReport)
      ensures !squash ==> report == Raw(Errors())
      ensures squash ==> report == Squashed(Squash(render, Errors()))
    {
      var errors: Store := Errors();
      if !squash {
        return Raw(errors);
      }
      var ret: seq<string> := [];
      for i := 0 to |errors.keys|
        invariant ret == RenderAll(render, FlattenKeys(errors.keys[..i], errors.values))
      {
        var list := At(errors, i);
        ghost var done := FlattenKeys(errors.keys[..i], errors.values);
        assert done + list[..0] == done;
        for j := 0 to |list|
          invariant ret == RenderAll(render, done + list[..j])
        {
          var error := list[j];
          ret := ret + [render(error.message, error.params)];
          RenderAllSnoc(render, done + list[..j], list[j]);
          EntriesPrefixStep(done, list, j);
        }
        FlattenKeysStep(errors.keys, errors.values, i);
        assert list[..|list|] == list;
      }
      assert errors.keys[..|errors.keys|] == errors.keys;
      report := Squashed(Join(Separator, ret));
    }

    method ClearErrors()
      modifies this`calls
      ensures calls == [] && Errors() == Empty()
    {
      calls := [];
    }

    /** Records "cannot be empty" for an empty value. */
    method IsNotEmpty(fieldName: string, value: Value)
      modifies this`calls
      ensures calls == old(calls) + NotEmptyRecords(fieldName, value)
    {
      if IsEmpty(value) {
        var params := map["@field" := fieldName];
        SetError(fieldName, NotEmptyTemplate, params);
      }
    }

    /** Records "invalid" when the host rejects the value for the property type. */
    method IsValidValue(fieldName: string, value: Value, propertyType: string, host: Host)
      modifies this`calls
      ensures calls == old(calls) + ValidValueRecords(host, fieldName, value, propertyType)
    {
      if !host.verify(value, propertyType) {
        var params := map["@value" := StringOf(value), "@field" := fieldName];
        SetError(fieldName, InvalidValueTemplate, params);
      }
    }

    /** Checks an image against the instance's `max_resolution` and `min_resolution`, each read
        as height "x" width. */
    method ValidateImageField(fieldName: string, value: Value, host: Host)
      requires SettingsOk(host.instances(entityType, bundle))
      modifies this`calls
      ensures calls == old(calls) + ImageFieldRecords(host, old(entityType), old(bundle), fieldName, value)
    {
      var info := FindInstance(host.instances(GetEntityType(), GetBundle()), fieldName);
      if info.None? {
        return;
      }
      var settings := info.value;
      var params := BaseParams(value);
      params := CheckMaximum(fieldName, value, settings.maxResolution, params);
      params := CheckMinimum(fieldName, value, settings.maxResolution, settings.minResolution, params);
      LogTwice(old(calls), MaxRecords(fieldName, value, settings.maxResolution),
               MinRecords(fieldName, value, settings.maxResolution, settings.minResolution));
    }

    /** The `max_resolution` half of `validateImageField`: width first, then height. */
    method CheckMaximum(fieldName: string, value: Value, maxResolution: string, params: map<string, string>)
      returns (newParams: map<string, string>)
      requires SettingOk(maxResolution) && params == BaseParams(value)
      modifies this`calls
      ensures newParams == MaxParams(value, maxResolution)
      ensures calls == old(calls) + MaxRecords(fieldName, value, maxResolution)
    {
      newParams := params;
      if EmptyString(maxResolution) {
        return;
      }
      var parts := Explode(maxResolution);
      var maxHeight := parts.0;
      var maxWidth := parts.1;
      newParams := newParams["@max-width" := maxWidth]["@max-height" := maxHeight];
      MaxRecordsSet(fieldName, value, maxResolution);
      var wide := Above(WidthOf(value), ParseNat(maxWidth));
      if wide {
        SetError(fieldName, MaxWidthTemplate, newParams);
      }
      var high := Above(HeightOf(value), ParseNat(maxHeight));
      if high {
        SetError(fieldName, MaxHeightTemplate, newParams);
      }
      LogTwice(old(calls), Fired(wide, fieldName, MaxWidthTemplate, newParams), Fired(high, fieldName, MaxHeightTemplate, newParams));
    }

    /** The `min_resolution` half of `validateImageField`, with the same reading. */
    method CheckMinimum(fieldName: string, value: Value, maxResolution: string, minResolution: string, params: map<string, string>)
      returns (newParams: map<string, string>)
      requires SettingOk(maxResolution) && SettingOk(minResolution) && params == MaxParams(value, maxResolution)
      modifies this`calls
      ensures newParams == MinParams(value, maxResolution, minResolution)
      ensures calls == old(calls) + MinRecords(fieldName, value, maxResolution, minResolution)
    {
      newParams := params;
      if EmptyString(minResolution) {
        return;
      }
      var parts := Explode(minResolution);
      var minHeight := parts.0;
      var minWidth := parts.1;
      newParams := newParams["@min-width" := minWidth]["@min-height" := minHeight];
      MinRecordsSet(fieldName, value, maxResolution, minResolution);
      var narrow := Below(WidthOf(value), ParseNat(minWidth));
      if narrow {
        SetError(fieldName, MinWidthTemplate, newParams);
      }
      var low := Below(HeightOf(value), ParseNat(minHeight));
      if low {
        SetError(fieldName, MinHeightTemplate, newParams);
      }
      LogTwice(old(calls), Fired(narrow, fieldName, MinWidthTemplate, newParams), Fired(low, fieldName, MinHeightTemplate, newParams));
    }
  }
}
