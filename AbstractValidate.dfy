/** The field-bag validator with a severity policy: registered pre-validate functions run first,
    then every field goes through the exclusive check chain, and each violation is buffered,
    shown or thrown according to the error level. */
module SeverityValidation {
  import opened Values
  import opened OrderedMaps
  import opened DrupalHost
  import opened ErrorStore
  import opened FieldChecks

  /** The two places a message can go without an exception: the instance's error buffer and the
      messages queued for display. */
  datatype Sinks = Sinks(errors: seq<string>, shown: seq<string>)

  datatype Delivery = Delivery(sinks: Sinks, outcome: Outcome<()>)

  /** `setError` on each message in turn, at the level compared strictly: level 0 buffers them
      all, level 1 shows them all, and any other level throws the first and stops. */
  function Deliver(level: Value, s: Sinks, messages: seq<string>): Delivery {
    if level == Int(0) then Delivery(Sinks(s.errors + messages, s.shown), Returned(()))
    else if level == Int(1) then Delivery(Sinks(s.errors, s.shown + messages), Returned(()))
    else if messages == [] then Delivery(s, Returned(()))
    else Delivery(s, Threw(messages[0]))
  }

  /** Delivering `a` then `b` is delivering `a + b`, unless `a` already threw. */
  lemma DeliverAppend(level: Value, s: Sinks, a: seq<string>, b: seq<string>)
    ensures Deliver(level, s, a + b) ==
      (var d := Deliver(level, s, a); if d.outcome.Threw? then d else Deliver(level, d.sinks, b))
  {
    if a == [] {
      assert a + b == b;
    } else {
      assert (a + b)[0] == a[0];
    }
  }

  /** Once delivery threw, nothing further is delivered. */
  lemma DeliverAborted(level: Value, s: Sinks, a: seq<string>, b: seq<string>)
    requires Deliver(level, s, a).outcome.Threw?
    requires a <= b
    ensures Deliver(level, s, b) == Deliver(level, s, a)
  {
    assert b[0] == a[0];
  }

  /** The sinks and outcome `s`, `outcome` are those of delivering `messages` from `s0`. */
  predicate Delivered(level: Value, s0: Sinks, messages: seq<string>, s: Sinks, outcome: Outcome<()>) {
    Delivery(s, outcome) == Deliver(level, s0, messages)
  }

  /** The round of chunk `i` of a loop that delivers chunk after chunk and stops at the first
      exception. */
  lemma DeliverStep(level: Value, s0: Sinks, chunks: seq<seq<string>>, i: nat, s: Sinks, s1: Sinks, outcome: Outcome<()>)
    requires i < |chunks|
    requires Delivered(level, s0, ConcatN(chunks, i), s, Returned(()))
    requires Delivered(level, s, chunks[i], s1, outcome)
    ensures outcome.Returned? ==> Delivered(level, s0, ConcatN(chunks, i + 1), s1, Returned(()))
    ensures outcome.Threw? ==> Delivered(level, s0, ConcatN(chunks, |chunks|), s1, outcome)
  {
    DeliverAppend(level, s0, ConcatN(chunks, i), chunks[i]);
    if outcome.Threw? {
      ConcatNPrefix(chunks, i + 1, |chunks|);
      DeliverAborted(level, s0, ConcatN(chunks, i + 1), ConcatN(chunks, |chunks|));
    }
  }

  /** At level 0 nothing throws and the buffer grows by every message in order; at level 1
      nothing throws, the buffer is untouched and every message is shown in order; at any other
      level nothing is buffered or shown, and the first message, if any, is thrown. */
  lemma DeliverByLevel(level: Value, s: Sinks, messages: seq<string>)
    ensures level == Int(0) ==> Deliver(level, s, messages) == Delivery(Sinks(s.errors + messages, s.shown), Returned(()))
    ensures level == Int(1) ==> Deliver(level, s, messages) == Delivery(Sinks(s.errors, s.shown + messages), Returned(()))
    ensures level != Int(0) && level != Int(1) ==>
      Deliver(level, s, messages).sinks == s
      && (Deliver(level, s, messages).outcome.Threw? <==> messages != [])
  {
  }

  /** At level 0, two validations in a row buffer the messages of the first, then those of the
      second. */
  lemma BufferAccumulates(s: Sinks, first: seq<string>, second: seq<string>)
    ensures Deliver(Int(0), Deliver(Int(0), s, first).sinks, second) == Deliver(Int(0), s, first + second)
    ensures Deliver(Int(0), s, first + second).sinks.errors == s.errors + first + second
  {
    DeliverAppend(Int(0), s, first, second);
  }

  /** At a throwing level a validation throws exactly when some field gives a message, and the
      message thrown is the first one of the first such field: the fields after it cannot
      change the outcome. */
  lemma ThrowsAtFirstViolation(level: Value, s: Sinks, host: Host, entityType: string, bundle: string, fields: OMap<Value>)
    requires level != Int(0) && level != Int(1)
    ensures var d := Deliver(level, s, AllMessages(host, entityType, bundle, fields));
            var k := FirstFilled(FieldChunks(host, entityType, bundle, fields), |fields.keys|);
            && d.sinks == s
            && (d.outcome == Returned(()) <==> k == |fields.keys|)
            && (k < |fields.keys| ==> d.outcome == Threw(FieldMessages(host, entityType, bundle, fields.keys[k], At(fields, k))[0]))
  {
    FirstViolation(host, entityType, bundle, fields);
  }

  /** The field bag after the registered pre-validate functions: each one that exists runs on
      the bag the previous ones left, in registration order; a missing one is skipped. */
  function Hooks(host: Host, names: seq<string>, fields: OMap<Value>): OMap<Value>
    decreases |names|
  {
    if names == [] then fields
    else
      var before := Hooks(host, names[..|names| - 1], fields);
      var name := names[|names| - 1];
      if host.functionExists(name) then host.preValidate(name, before) else before
  }

  /** The registered names that exist, in registration order. */
  function Existing(host: Host, names: seq<string>): (r: seq<string>)
    ensures forall n :: n in r ==> n in names && host.functionExists(n)
    decreases |names|
  {
    if names == [] then []
    else Existing(host, names[..|names| - 1]) + (if host.functionExists(names[|names| - 1]) then [names[|names| - 1]] else [])
  }

  /** Every function of `names` run in order, none skipped. */
  function ApplyAll(host: Host, names: seq<string>, fields: OMap<Value>): OMap<Value>
    decreases |names|
  {
    if names == [] then fields else host.preValidate(names[|names| - 1], ApplyAll(host, names[..|names| - 1], fields))
  }

  /** Running the registered functions with the existence check is running exactly the existing
      ones, in registration order. */
  lemma {:induction false} HooksRunExisting(host: Host, names: seq<string>, fields: OMap<Value>)
    ensures Hooks(host, names, fields) == ApplyAll(host, Existing(host, names), fields)
    decreases |names|
  {
    if names != [] {
      var front := names[..|names| - 1];
      var name := names[|names| - 1];
      HooksRunExisting(host, front, fields);
      if host.functionExists(name) {
        var e := Existing(host, front) + [name];
        assert e[..|e| - 1] == Existing(host, front);
      } else {
        assert Existing(host, names) == Existing(host, front);
      }
    }
  }

  lemma HooksStep(host: Host, names: seq<string>, fields: OMap<Value>, i: nat)
    requires i < |names|
    ensures Hooks(host, names[..i + 1], fields) ==
      (var before := Hooks(host, names[..i], fields);
       if host.functionExists(names[i]) then host.preValidate(names[i], before) else before)
  {
    assert names[..i + 1][..i] == names[..i];
  }

  /** The messages `drupal_set_message($message, 'error')` queued for display. */
  class MessageQueue {
    var shown: seq<string>

    constructor ()
      ensures shown == []
    {
      shown := [];
    }

    method SetMessage(message: string)
      modifies this
      ensures shown == old(shown) + [message]
    {
      shown := shown + [message];
    }
  }

  class AbstractValidate {
    /** Field machine name to the field's value, in the order the fields were first set. */
    var fields: OMap<Value>
    var entityType: string
    var bundle: string
    /** 0 buffers errors, 1 shows them, anything else throws them. */
    var errorLevel: Value
    /** The messages buffered at level 0. */
    var errors: seq<string>
    var metaData: OMap<Value>
    /** The names of the pre-validate functions, in registration order. */
    var preValidate: seq<string>

    /** The error level starts at 1; an unset entity type or bundle reads as "" and an unset
        array as the empty one. */
    constructor ()
      ensures errorLevel == Int(1)
      ensures fields == Empty() && errors == [] && metaData == Empty() && preValidate == []
      ensures entityType == "" && bundle == ""
    {
      fields := Empty();
      entityType := "";
      bundle := "";
      errorLevel := Int(1);
      errors := [];
      metaData := Empty();
      preValidate := [];
    }

    method SetBundle(bundle: string)
      modifies this`bundle
      ensures this.bundle == bundle
    {
      this.bundle := bundle;
    }

    method SetEntity(entity: string)
      modifies this`entityType
      ensures entityType == entity
    {
      entityType := entity;
    }

    /** `$this->fields[$name] = $value`: that key takes the value, a new key goes last, and no
        other key changes. */
    method AddField(name: string, value: Value)
      modifies this`fields
      ensures fields == Put(old(fields), name, value)
      ensures name in fields.values && fields.values[name] == value
      ensures forall k :: k != name ==> (k in fields.values <==> k in old(fields).values)
      ensures forall k :: k != name && k in fields.values ==> fields.values[k] == old(fields).values[k]
      ensures DistinctKeys(old(fields)) ==> DistinctKeys(fields)
    {
      if DistinctKeys(fields) {
        PutKeepsKeysDistinct(fields, name, value);
      }
      fields := Put(fields, name, value);
    }

    function GetFields(): OMap<Value>
      reads this
    {
      fields
    }

    /** Replaces the whole bag and returns the new bag, not the validator. */
    method SetFields(fields: OMap<Value>) returns (r: OMap<Value>)
      modifies this`fields
      ensures GetFields() == fields && r == fields
    {
      this.fields := fields;
      return this.fields;
    }

    /** Runs the pre-validate functions, then checks every field in order, delivering each
        violation at the error level; returns at the first exception. */
    method Validate(host: Host, out: MessageQueue) returns (outcome: Outcome<()>)
      modifies this`fields, this`errors, out
      ensures fields == Hooks(host, preValidate, old(fields))
      ensures Delivered(errorLevel, Sinks(old(errors), old(out.shown)), AllMessages(host, entityType, bundle, fields), Sinks(errors, out.shown), outcome)
    {
      RunPreValidate(host);
      outcome := RunFields(fields, host, out);
    }

    /** The first loop of `validate`. */
    method RunPreValidate(host: Host)
      modifies this`fields
      ensures fields == Hooks(host, preValidate, old(fields))
    {
      for i := 0 to |preValidate|
        invariant fields == Hooks(host, preValidate[..i], old(fields))
      {
        HooksStep(host, preValidate, old(fields), i);
        var prevalidate := preValidate[i];
        if !host.functionExists(prevalidate) {
          continue;
        }
        fields := host.preValidate(prevalidate, fields);
      }
      assert preValidate[..|preValidate|] == preValidate;
    }

    /** The second loop of `validate`, over the bag as it stands once the pre-validate
        functions ran: field by field, up to the first exception. */
    method RunFields(bag: OMap<Value>, host: Host, out: MessageQueue) returns (outcome: Outcome<()>)
      modifies this`errors, out
      ensures Delivered(errorLevel, Sinks(old(errors), old(out.shown)), AllMessages(host, entityType, bundle, bag), Sinks(errors, out.shown), outcome)
    {
      for i := 0 to |bag.keys|
        invariant Delivered(errorLevel, Sinks(old(errors), old(out.shown)), ConcatN(FieldChunks(host, entityType, bundle, bag), i),
                            Sinks(errors, out.shown), Returned(()))
      {
        var o := CheckFieldAt(bag, i, host, out, Sinks(old(errors), old(out.shown)));
        if o.Threw? {
          return o;
        }
      }
      return Returned(());
    }

    /** The `i`-th round of the field loop. */
    method CheckFieldAt(bag: OMap<Value>, i: nat, host: Host, out: MessageQueue, ghost s0: Sinks)
      returns (outcome: Outcome<()>)
      requires i < |bag.keys|
      requires Delivered(errorLevel, s0, ConcatN(FieldChunks(host, entityType, bundle, bag), i), Sinks(errors, out.shown), Returned(()))
      modifies this`errors, out
      ensures outcome.Returned? ==>
        Delivered(errorLevel, s0, ConcatN(FieldChunks(host, entityType, bundle, bag), i + 1), Sinks(errors, out.shown), Returned(()))
      ensures outcome.Threw? ==>
        Delivered(errorLevel, s0, AllMessages(host, entityType, bundle, bag), Sinks(errors, out.shown), outcome)
    {
      ghost var s := Sinks(errors, out.shown);
      outcome := CheckField(bag.keys[i], At(bag, i), host, out);
      DeliverStep(errorLevel, s0, FieldChunks(host, entityType, bundle, bag), i, s, Sinks(errors, out.shown), outcome);
    }

    /** The exclusive chain for one field: required and empty, else the type check (whose
        failure ends the field's round), else the callbacks. */
    method CheckField(field: string, value: Value, host: Host, out: MessageQueue) returns (outcome: Outcome<()>)
      modifies this`errors, out
      ensures Delivered(errorLevel, Sinks(old(errors), old(out.shown)), FieldMessages(host, entityType, bundle, field, value), Sinks(errors, out.shown), outcome)
    {
      var fieldTypeInfo := TypeInfoOf(host, field);
      var instanceInfo := InstanceOf(host, entityType, bundle, field);
      if Required(instanceInfo) && IsEmpty(value) {
        outcome := SetError(EmptyFieldMessage(host, instanceInfo), out);
      } else {
        if fieldTypeInfo.propertyType.Some? && !host.verify(value, fieldTypeInfo.propertyType.value) {
          outcome := SetError(InvalidFieldMessage(host, instanceInfo, value), out);
          return;
        }
        outcome := RunCallbacks(fieldTypeInfo.callbacks, value, host, out);
      }
    }

    /** The callbacks in order, each rejection delivered, up to the first exception. */
    method RunCallbacks(callbacks: seq<string>, value: Value, host: Host, out: MessageQueue) returns (outcome: Outcome<()>)
      modifies this`errors, out
      ensures Delivered(errorLevel, Sinks(old(errors), old(out.shown)), CallbackMessages(host, callbacks, value), Sinks(errors, out.shown), outcome)
    {
      for j := 0 to |callbacks|
        invariant Delivered(errorLevel, Sinks(old(errors), old(out.shown)), ConcatN(CallbackChunks(host, callbacks, value), j),
                            Sinks(errors, out.shown), Returned(()))
      {
        var o := RunCallback(callbacks, j, value, host, out, Sinks(old(errors), old(out.shown)));
        if o.Threw? {
          return o;
        }
      }
      return Returned(());
    }

    /** Callback `j`: a rejection is delivered. */
    method RunCallback(callbacks: seq<string>, j: nat, value: Value, host: Host, out: MessageQueue, ghost s0: Sinks)
      returns (outcome: Outcome<()>)
      requires j < |callbacks|
      requires Delivered(errorLevel, s0, ConcatN(CallbackChunks(host, callbacks, value), j), Sinks(errors, out.shown), Returned(()))
      modifies this`errors, out
      ensures outcome.Returned? ==>
        Delivered(errorLevel, s0, ConcatN(CallbackChunks(host, callbacks, value), j + 1), Sinks(errors, out.shown), Returned(()))
      ensures outcome.Threw? ==>
        Delivered(errorLevel, s0, ConcatN(CallbackChunks(host, callbacks, value), |callbacks|), Sinks(errors, out.shown), outcome)
    {
      ghost var s := Sinks(errors, out.shown);
      outcome := Returned(());
      if !host.accepts(callbacks[j], value) {
        outcome := SetError(FormatMessage(host, value), out);
      }
      DeliverStep(errorLevel, s0, CallbackChunks(host, callbacks, value), j, s, Sinks(errors, out.shown), outcome);
    }

    /** Level 0 buffers the message, level 1 shows it, and any other level throws it; the
        comparison is strict, so "0", FALSE or NULL is a throwing level. */
    method SetError(message: string, out: MessageQueue) returns (outcome: Outcome<()>)
      modifies this`errors, out
      ensures errorLevel == Int(0) ==> outcome == Returned(()) && errors == old(errors) + [message] && out.shown == old(out.shown)
      ensures errorLevel == Int(1) ==> outcome == Returned(()) && errors == old(errors) && out.shown == old(out.shown) + [message]
      ensures errorLevel != Int(0) && errorLevel != Int(1) ==>
        outcome == Threw(message) && errors == old(errors) && out.shown == old(out.shown)
    {
      if errorLevel == Int(0) {
        errors := errors + [message];
      } else if errorLevel == Int(1) {
        out.SetMessage(message);
      } else {
        return Threw(message);
      }
      return Returned(());
    }

    method SetErrorLevel(level: Value)
      modifies this`errorLevel
      ensures errorLevel == level
    {
      errorLevel := level;
    }

    function GetErrors(): seq<string>
      reads this
    {
      errors
    }

    /** `$this->metaData[$key] = $value`: only that key changes. */
    method AddMetaData(key: string, value: Value)
      modifies this`metaData
      ensures metaData == Put(old(metaData), key, value)
      ensures key in metaData.values && metaData.values[key] == value
      ensures forall k :: k != key ==> (k in metaData.values <==> k in old(metaData).values)
      ensures forall k :: k != key && k in metaData.values ==> metaData.values[k] == old(metaData).values[k]
      ensures DistinctKeys(old(metaData)) ==> DistinctKeys(metaData)
    {
      if DistinctKeys(metaData) {
        PutKeepsKeysDistinct(metaData, key, value);
      }
      metaData := Put(metaData, key, value);
    }

    function GetMetaData(): OMap<Value>
      reads this
    {
      metaData
    }

    /** Registers a pre-validate function after those already registered. */
    method PreValidateRegister(functionName: string)
      modifies this`preValidate
      ensures preValidate == old(preValidate) + [functionName]
    {
      preValidate := preValidate + [functionName];
    }
  }
}
