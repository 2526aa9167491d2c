/** The Drupal collaborators of the validators, reduced to the answers the validators read.
    Each lookup is a field of `Host`; nothing of Drupal is re-implemented here. */
module DrupalHost {
  import opened Values
  import opened OrderedMaps
  import opened ErrorStore

  /** One entry of `field_info_instances(entity type, bundle)` joined with the instance
      settings an image field carries; an unset resolution setting is "". */
  datatype Instance = Instance(
    fieldName: string,
    fieldLabel: string,
    required: bool,
    maxResolution: string,
    minResolution: string)

  /** What `field_info_field_types(type)` tells the validators: the entity property type to
      verify against, if set, and the `node_validator_callback` names, [] if unset. */
  datatype FieldTypeInfo = FieldTypeInfo(propertyType: Option<string>, callbacks: seq<string>)

  /** What a validator method added by a subclass does when dispatched by name: the value it
      returns and the `setError` calls it makes, in order, each with its own field name, message
      and parameters. */
  datatype CustomEffect = CustomEffect(result: Value, calls: seq<Recorded>)

  datatype Host = Host(
    labelKey: string -> string,                      // entity_get_info(type)['entity keys']['label'], "" if unset
    instances: (string, string) -> seq<Instance>,    // field_info_instances(entity type, bundle)
    fieldType: string -> Option<string>,             // field_info_field(name)['type'], None if no such field
    typeInfo: string -> FieldTypeInfo,               // field_info_field_types(type)
    verify: (Value, string) -> bool,                 // entity_property_verify_data_type(value, type)
    accepts: (string, Value) -> bool,                // call_user_func_array(callback, [validator, value])
    render: (string, map<string, string>) -> string, // format_string / t
    custom: (string, string, Value) -> CustomEffect, // $this->{method}(name, value) for a subclass method
    functionExists: string -> bool,                  // function_exists(name)
    preValidate: (string, OMap<Value>) -> OMap<Value>) // the field bag after call_user_func_array(name, [validator])

  /** `field_info_instance(entity type, name, bundle)`: the instance of that field, if any. */
  function FindInstance(insts: seq<Instance>, name: string): (r: Option<Instance>)
    ensures r.Some? ==> r.value in insts && r.value.fieldName == name
    ensures r.None? ==> forall i :: 0 <= i < |insts| ==> insts[i].fieldName != name
    decreases |insts|
  {
    if insts == [] then None
    else if insts[0].fieldName == name then Some(insts[0])
    else FindInstance(insts[1..], name)
  }

  /** `field_info_field_types(field_info_field(name)['type'])`. For a name that is no field the
      type is NULL, Drupal returns the list of all field types, and neither key is set in it. */
  function TypeInfoOf(host: Host, field: string): FieldTypeInfo {
    match host.fieldType(field)
    case None => FieldTypeInfo(None, [])
    case Some(t) => host.typeInfo(t)
  }

  predicate IsImageField(host: Host, field: string) {
    host.fieldType(field) == Some("image")
  }
}
