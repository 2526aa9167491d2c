/** The throwing field-bag validator: a bag of field values, checked field by field against the
    field definitions of an entity type and bundle; every violation is kept in a flat error list
    that nothing clears, and `validate` throws while that list is non-empty. */
module AbstractEntityValidation {
  import opened Values
  import opened Strings
  import opened OrderedMaps
  import opened DrupalHost
  import opened ErrorStore
  import opened FieldChecks
  import EntityRules

  /** The end of `validate`: the exception listing every error held, joined with ", ", or TRUE
      when none is held. */
  function Verdict(render: (string, map<string, string>) -> string, errors: seq<string>): (r: Outcome<bool>)
    ensures r == Returned(true) <==> errors == []
    ensures r.Returned? || r.Threw?
  {
    if errors != [] then Threw(render(EntityRules.FailureTemplate, map["@errors" := Join(", ", errors)]))
    else Returned(true)
  }

  /** Once an error is held, every later verdict is an exception, whatever is added. */
  lemma VerdictSticky(render: (string, map<string, string>) -> string, errors: seq<string>, more: seq<string>)
    requires Verdict(render, errors).Threw?
    ensures Verdict(render, errors + more).Threw?
    ensures Verdict(render, errors + more).message == render(EntityRules.FailureTemplate, map["@errors" := Join(", ", errors + more)])
  {
  }

  class AbstractEntityValidate {
    var entityType: string
    var bundle: string
    /** Field machine name to the field's value, in the order the fields were first set. */
    var fields: OMap<Value>
    /** Every message `setError` received, in order. */
    var errors: seq<string>

    /** An unset entity type or bundle reads as "". */
    constructor ()
      ensures entityType == "" && bundle == "" && fields == Empty() && errors == []
    {
      entityType := "";
      bundle := "";
      fields := Empty();
      errors := [];
    }

    method SetBundle(bundle: string)
      modifies this`bundle
      ensures GetBundle() == bundle
    {
      this.bundle := bundle;
    }

    function GetBundle(): string
      reads this
    {
      bundle
    }

    method SetEntityType(entityType: string)
      modifies this`entityType
      ensures GetEntityType() == entityType
    {
      this.entityType := entityType;
    }

    function GetEntityType(): string
      reads this
    {
      entityType
    }

    /** `$this->fields[$name] = $value`: that key takes the value, a new key goes last, and no
        other key changes. */
    method AddField(name: string, value: Value)
      modifies this`fields
      ensures fields == Put(old(fields), name, value)
      ensures name in fields.values && fields.values[name] == value
      ensures forall k :: k != name ==> (k in fields.values <==> k in old(fields).values)
      ensures forall k :: k != name && k in fields.values ==> fields.values[k] == old(fields).values[k]
      ensures DistinctKeys(old(fields)) ==> DistinctKeys(fields)
    {
      if DistinctKeys(fields) {
        PutKeepsKeysDistinct(fields, name, value);
      }
      fields := Put(fields, name, value);
    }

    function GetFields(): OMap<Value>
      reads this
    {
      fields
    }

    /** Replaces the whole bag. */
    method SetFields(fields: OMap<Value>)
      modifies this`fields
      ensures GetFields() == fields
    {
      this.fields := fields;
    }

    /** Checks every field of the bag in order, adding each violation to the errors, then throws
        if any error is held, including errors of earlier calls. */
    method Validate(host: Host) returns (outcome: Outcome<bool>)
      modifies this`errors
      ensures errors == old(errors) + AllMessages(host, entityType, bundle, fields)
      ensures outcome == Verdict(host.render, errors)
      ensures old(errors) != [] ==> outcome.Threw?
    {
      CheckFields(fields, host);
      if errors != [] {
        var params := map["@errors" := Join(", ", errors)];
        return Threw(host.render(EntityRules.FailureTemplate, params));
      }
      return Returned(true);
    }

    /** The loop of `validate`: every field of the bag in order. */
    method CheckFields(bag: OMap<Value>, host: Host)
      modifies this`errors
      ensures Logged(errors, old(errors), FieldChunks(host, entityType, bundle, bag), |bag.keys|)
    {
      for i := 0 to |bag.keys|
        invariant Logged(errors, old(errors), FieldChunks(host, entityType, bundle, bag), i)
      {
        CheckFieldAt(bag, i, host, old(errors));
      }
    }

    /** The `i`-th round of `validate`'s loop. */
    method CheckFieldAt(bag: OMap<Value>, i: nat, host: Host, ghost e0: seq<string>)
      requires i < |bag.keys|
      requires Logged(errors, e0, FieldChunks(host, entityType, bundle, bag), i)
      modifies this`errors
      ensures Logged(errors, e0, FieldChunks(host, entityType, bundle, bag), i + 1)
    {
      ghost var before := errors;
      CheckField(bag.keys[i], At(bag, i), host);
      LoggedStep(before, e0, FieldChunks(host, entityType, bundle, bag), i);
    }

    /** The exclusive chain for one field: required and empty, else the type check (whose
        failure ends the field's round), else the callbacks. */
    method CheckField(field: string, value: Value, host: Host)
      modifies this`errors
      ensures errors == old(errors) + FieldMessages(host, entityType, bundle, field, value)
    {
      var fieldTypeInfo := TypeInfoOf(host, field);
      var instanceInfo := InstanceOf(host, entityType, bundle, field);
      if Required(instanceInfo) && IsEmpty(value) {
        SetError(EmptyFieldMessage(host, instanceInfo));
      } else {
        if fieldTypeInfo.propertyType.Some? && !host.verify(value, fieldTypeInfo.propertyType.value) {
          SetError(InvalidFieldMessage(host, instanceInfo, value));
          return;
        }
        RunCallbacks(fieldTypeInfo.callbacks, value, host);
      }
    }

    /** Every `node_validator_callback` in order; each one that rejects the value adds one error. */
    method RunCallbacks(callbacks: seq<string>, value: Value, host: Host)
      modifies this`errors
      ensures errors == old(errors) + CallbackMessages(host, callbacks, value)
    {
      for j := 0 to |callbacks|
        invariant Logged(errors, old(errors), CallbackChunks(host, callbacks, value), j)
      {
        RunCallback(callbacks, j, value, host, old(errors));
      }
    }

    /** Callback `j`: a rejection adds one format message. */
    method RunCallback(callbacks: seq<string>, j: nat, value: Value, host: Host, ghost e0: seq<string>)
      requires j < |callbacks|
      requires Logged(errors, e0, CallbackChunks(host, callbacks, value), j)
      modifies this`errors
      ensures Logged(errors, e0, CallbackChunks(host, callbacks, value), j + 1)
    {
      ghost var before := errors;
      if !host.accepts(callbacks[j], value) {
        SetError(FormatMessage(host, value));
      }
      LoggedStep(before, e0, CallbackChunks(host, callbacks, value), j);
    }

    /** Appends the message to the errors. */
    method SetError(message: string)
      modifies this`errors
      ensures errors == old(errors) + [message]
    {
      errors := errors + [message];
    }
  }
}
