/** The per-field check chain of the two field-bag validators: a required field with an empty
    value, else a value the entity API rejects for the field's property type, else every
    `node_validator_callback` of the field type that rejects the value. Each violation becomes
    one translated message. */
module FieldChecks {
  import opened Values
  import opened OrderedMaps
  import opened DrupalHost
  import opened ErrorStore

  const EmptyFieldTemplate := "Field %name is empty"
  const InvalidFieldTemplate := "The value %value is invalid for the field %field-label"
  const FormatTemplate := "The given format is not valid: %format"

  /** `field_info_instance(entity type, field, bundle)`: NULL when the bundle has no such instance. */
  function InstanceOf(host: Host, entityType: string, bundle: string, field: string): Option<Instance> {
    FindInstance(host.instances(entityType, bundle), field)
  }

  /** `$instance_info['required']`; a key of NULL reads as NULL. */
  predicate Required(inst: Option<Instance>) {
    inst.Some? && inst.value.required
  }

  /** `$instance_info['label']`; a key of NULL reads as NULL, which `t` prints as "". */
  function LabelOf(inst: Option<Instance>): string {
    if inst.Some? then inst.value.fieldLabel else ""
  }

  function EmptyFieldMessage(host: Host, inst: Option<Instance>): string {
    host.render(EmptyFieldTemplate, map["%name" := LabelOf(inst)])
  }

  function InvalidFieldMessage(host: Host, inst: Option<Instance>, value: Value): string {
    host.render(InvalidFieldTemplate, map["%value" := StringOf(value), "%field-label" := LabelOf(inst)])
  }

  function FormatMessage(host: Host, value: Value): string {
    host.render(FormatTemplate, map["%format" := StringOf(value)])
  }

  /** The messages of each callback: one when it rejects the value, none when it accepts it. */
  function CallbackChunks(host: Host, callbacks: seq<string>, value: Value): (r: seq<seq<string>>)
    ensures |r| == |callbacks|
  {
    seq(|callbacks|, j requires 0 <= j < |callbacks| =>
      if host.accepts(callbacks[j], value) then [] else [FormatMessage(host, value)])
  }

  /** The messages of the callbacks run in declared order. */
  function CallbackMessages(host: Host, callbacks: seq<string>, value: Value): seq<string> {
    ConcatN(CallbackChunks(host, callbacks, value), |callbacks|)
  }

  /** The messages one field gives, by the exclusive chain. */
  function FieldMessages(host: Host, entityType: string, bundle: string, field: string, value: Value): seq<string> {
    var inst := InstanceOf(host, entityType, bundle, field);
    var typeInfo := TypeInfoOf(host, field);
    if Required(inst) && IsEmpty(value) then [EmptyFieldMessage(host, inst)]
    else if typeInfo.propertyType.Some? && !host.verify(value, typeInfo.propertyType.value) then [InvalidFieldMessage(host, inst, value)]
    else CallbackMessages(host, typeInfo.callbacks, value)
  }

  /** The messages of each field of the bag, in key order. */
  function FieldChunks(host: Host, entityType: string, bundle: string, fields: OMap<Value>): (r: seq<seq<string>>)
    ensures |r| == |fields.keys|
  {
    seq(|fields.keys|, i requires 0 <= i < |fields.keys| => FieldMessages(host, entityType, bundle, fields.keys[i], At(fields, i)))
  }

  /** The messages of a whole pass over the bag. */
  function AllMessages(host: Host, entityType: string, bundle: string, fields: OMap<Value>): seq<string> {
    ConcatN(FieldChunks(host, entityType, bundle, fields), |fields.keys|)
  }

  // ---- reference definitions ----

  /** The callbacks that reject the value, in declared order. */
  function Rejecting(host: Host, callbacks: seq<string>, value: Value): (r: seq<string>)
    ensures |r| <= |callbacks|
    ensures forall c :: c in r ==> c in callbacks && !host.accepts(c, value)
    decreases |callbacks|
  {
    if callbacks == [] then []
    else
      var last := callbacks[|callbacks| - 1];
      Rejecting(host, callbacks[..|callbacks| - 1], value) + (if host.accepts(last, value) then [] else [last])
  }

  function Copies(m: string, n: nat): (r: seq<string>)
    ensures |r| == n && forall i :: 0 <= i < n ==> r[i] == m
  {
    seq(n, _ => m)
  }

  lemma CopiesStep(m: string, n: nat)
    ensures Copies(m, n) + [m] == Copies(m, n + 1)
  {
    assert (Copies(m, n) + [m])[n] == m;
  }

  /** The first `n` callbacks give one message per rejecting callback among them. */
  lemma {:induction false} CallbackPrefix(host: Host, callbacks: seq<string>, value: Value, n: nat)
    requires n <= |callbacks|
    ensures ConcatN(CallbackChunks(host, callbacks, value), n) == Copies(FormatMessage(host, value), |Rejecting(host, callbacks[..n], value)|)
    decreases n
  {
    if n > 0 {
      CallbackPrefix(host, callbacks, value, n - 1);
      assert callbacks[..n][..n - 1] == callbacks[..n - 1];
      CopiesStep(FormatMessage(host, value), |Rejecting(host, callbacks[..n - 1], value)|);
    }
  }

  /** Every callback runs, and each one that returns FALSE adds exactly one format message. */
  lemma CallbackMessagesCount(host: Host, callbacks: seq<string>, value: Value)
    ensures CallbackMessages(host, callbacks, value) == Copies(FormatMessage(host, value), |Rejecting(host, callbacks, value)|)
    ensures CallbackMessages(host, callbacks, value) == [] <==> forall c :: c in callbacks ==> host.accepts(c, value)
  {
    CallbackPrefix(host, callbacks, value, |callbacks|);
    assert callbacks[..|callbacks|] == callbacks;
    if !(forall c :: c in callbacks ==> host.accepts(c, value)) {
      var c :| c in callbacks && !host.accepts(c, value);
      RejectingHas(host, callbacks, value, c);
    }
  }

  lemma {:induction false} RejectingHas(host: Host, callbacks: seq<string>, value: Value, c: string)
    requires c in callbacks && !host.accepts(c, value)
    ensures c in Rejecting(host, callbacks, value)
    decreases |callbacks|
  {
    if c != callbacks[|callbacks| - 1] {
      assert c in callbacks[..|callbacks| - 1] by {
        assert callbacks == callbacks[..|callbacks| - 1] + [callbacks[|callbacks| - 1]];
      }
      RejectingHas(host, callbacks[..|callbacks| - 1], value, c);
    }
  }

  /** The checks of one field are exclusive: a required empty field gives its one message and
      nothing else; else a value of the wrong type gives its one message and no callback runs;
      else the field gives one format message per rejecting callback. */
  lemma FieldMessagesChain(host: Host, entityType: string, bundle: string, field: string, value: Value)
    ensures var inst := InstanceOf(host, entityType, bundle, field);
            var typeInfo := TypeInfoOf(host, field);
            var r := FieldMessages(host, entityType, bundle, field, value);
            && (Required(inst) && IsEmpty(value) ==> r == [EmptyFieldMessage(host, inst)])
            && (!(Required(inst) && IsEmpty(value)) && typeInfo.propertyType.Some? && !host.verify(value, typeInfo.propertyType.value)
                ==> r == [InvalidFieldMessage(host, inst, value)])
            && (!(Required(inst) && IsEmpty(value)) && (typeInfo.propertyType.None? || host.verify(value, typeInfo.propertyType.value))
                ==> r == Copies(FormatMessage(host, value), |Rejecting(host, typeInfo.callbacks, value)|))
  {
    CallbackMessagesCount(host, TypeInfoOf(host, field).callbacks, value);
  }

  /** A pass over the bag gives no message exactly when no field gives one; otherwise its first
      message is the first message of the first field that gives one. */
  lemma FirstViolation(host: Host, entityType: string, bundle: string, fields: OMap<Value>)
    ensures var chunks := FieldChunks(host, entityType, bundle, fields);
            var k := FirstFilled(chunks, |fields.keys|);
            && (AllMessages(host, entityType, bundle, fields) == [] <==> k == |fields.keys|)
            && (k < |fields.keys| ==>
                  (forall j :: 0 <= j < k ==> FieldMessages(host, entityType, bundle, fields.keys[j], At(fields, j)) == [])
                  && AllMessages(host, entityType, bundle, fields)[0] == FieldMessages(host, entityType, bundle, fields.keys[k], At(fields, k))[0])
  {
    var chunks := FieldChunks(host, entityType, bundle, fields);
    var k := FirstFilled(chunks, |fields.keys|);
    ConcatNHead(chunks, |fields.keys|);
    forall j | 0 <= j < k
      ensures FieldMessages(host, entityType, bundle, fields.keys[j], At(fields, j)) == []
    {
      assert chunks[j] == [];
    }
    if k < |fields.keys| {
      assert chunks[k] == FieldMessages(host, entityType, bundle, fields.keys[k], At(fields, k));
    }
  }
}
