/** What the per-entity validator does, as functions: the rule list `getFieldsInfo` builds, the
    errors each rule records, the write-backs of the pre-processors, and the final decision. */
module EntityRules {
  import opened Values
  import opened Strings
  import opened OrderedMaps
  import opened DrupalHost
  import opened ErrorStore
  import Resolution

  /** A rule name in a field's `preprocess` or `validators` list, dispatched to a method of the
      validator: the two built-in ones, or one a subclass adds. */
  datatype Rule = IsNotEmptyRule | ValidateImageFieldRule | CustomRule(name: string)

  /** One entry of the field-info array: optional `property`, `preprocess`, `validators`. */
  datatype FieldInfo = FieldInfo(property: Option<string>, preprocess: seq<Rule>, validators: seq<Rule>)

  type FieldsInfo = OMap<FieldInfo>

  const NotEmptyTemplate := "The field @field cannot be empty."
  const InvalidValueTemplate := "The value @value is invalid for the field @field."
  const FailureTemplate := "The validation process failed: @errors"

  // ---- getFieldsInfo ----

  function LabelFields(labelKey: string): FieldsInfo {
    if EmptyString(labelKey) then Empty() else Put(Empty(), labelKey, FieldInfo(None, [], [IsNotEmptyRule]))
  }

  /** `$fields[$name]['validators'][] = $rule`. */
  function AppendValidator(fi: FieldsInfo, name: string, rule: Rule): FieldsInfo {
    if name in fi.values then Put(fi, name, fi.values[name].(validators := fi.values[name].validators + [rule]))
    else Put(fi, name, FieldInfo(None, [], [rule]))
  }

  function InstanceStep(host: Host, fi: FieldsInfo, inst: Instance): FieldsInfo {
    var afterRequired := if inst.required then AppendValidator(fi, inst.fieldName, IsNotEmptyRule) else fi;
    if IsImageField(host, inst.fieldName) then AppendValidator(afterRequired, inst.fieldName, ValidateImageFieldRule)
    else afterRequired
  }

  /** The array `getFieldsInfo` returns for the label key and the instances of the bundle. */
  function FieldsInfoOf(host: Host, labelKey: string, insts: seq<Instance>): FieldsInfo
    decreases |insts|
  {
    if insts == [] then LabelFields(labelKey)
    else InstanceStep(host, FieldsInfoOf(host, labelKey, insts[..|insts| - 1]), insts[|insts| - 1])
  }

  /** `$fields[$name]` never lists a field twice: each field of the array is one key. */
  lemma {:induction false} FieldsInfoDistinct(host: Host, labelKey: string, insts: seq<Instance>)
    ensures DistinctKeys(FieldsInfoOf(host, labelKey, insts))
    decreases |insts|
  {
    if insts == [] {
      if !EmptyString(labelKey) {
        PutKeepsKeysDistinct(Empty<FieldInfo>(), labelKey, FieldInfo(None, [], [IsNotEmptyRule]));
      }
    } else {
      var prev := FieldsInfoOf(host, labelKey, insts[..|insts| - 1]);
      var inst := insts[|insts| - 1];
      FieldsInfoDistinct(host, labelKey, insts[..|insts| - 1]);
      var afterRequired := if inst.required then AppendValidator(prev, inst.fieldName, IsNotEmptyRule) else prev;
      if inst.required {
        AppendValidatorDistinct(prev, inst.fieldName, IsNotEmptyRule);
      }
      if IsImageField(host, inst.fieldName) {
        AppendValidatorDistinct(afterRequired, inst.fieldName, ValidateImageFieldRule);
      }
    }
  }

  lemma AppendValidatorDistinct(fi: FieldsInfo, name: string, rule: Rule)
    requires DistinctKeys(fi)
    ensures DistinctKeys(AppendValidator(fi, name, rule))
  {
    if name in fi.values {
      PutKeepsKeysDistinct(fi, name, fi.values[name].(validators := fi.values[name].validators + [rule]));
    } else {
      PutKeepsKeysDistinct(fi, name, FieldInfo(None, [], [rule]));
    }
  }

  /** The rules one instance contributes: `isNotEmpty` when required, then `validateImageField`
      for an image field. */
  function InstanceRules(host: Host, inst: Instance): seq<Rule> {
    (if inst.required then [IsNotEmptyRule] else []) + (if IsImageField(host, inst.fieldName) then [ValidateImageFieldRule] else [])
  }

  /** The rules all instances named `k` contribute, in instance order. */
  function RulesFor(host: Host, insts: seq<Instance>, k: string): seq<Rule>
    decreases |insts|
  {
    if insts == [] then []
    else RulesFor(host, insts[..|insts| - 1], k) + (if insts[|insts| - 1].fieldName == k then InstanceRules(host, insts[|insts| - 1]) else [])
  }

  predicate LabelListed(labelKey: string, k: string) {
    !EmptyString(labelKey) && k == labelKey
  }

  /** An instance puts its field in the array when it is required or an image field. */
  predicate Listed(host: Host, inst: Instance) {
    inst.required || IsImageField(host, inst.fieldName)
  }

  /** The entry of `k`, or an entry without rules when `k` is not listed. */
  function EntryOf(fi: FieldsInfo, k: string): FieldInfo {
    if k in fi.values then fi.values[k] else FieldInfo(None, [], [])
  }

  function LabelRules(labelKey: string, k: string): seq<Rule> {
    if LabelListed(labelKey, k) then [IsNotEmptyRule] else []
  }

  lemma AppendValidatorEntry(fi: FieldsInfo, name: string, rule: Rule, k: string)
    ensures k in AppendValidator(fi, name, rule).values <==> k in fi.values || k == name
    ensures EntryOf(AppendValidator(fi, name, rule), k)
         == if k == name then EntryOf(fi, k).(validators := EntryOf(fi, k).validators + [rule]) else EntryOf(fi, k)
  {
  }

  /** `$fields[$name]['validators'][] = $rule` under a condition. */
  lemma AppendIfEntry(fi: FieldsInfo, cond: bool, name: string, rule: Rule, k: string)
    ensures var r := if cond then AppendValidator(fi, name, rule) else fi;
      && (k in r.values <==> k in fi.values || (cond && k == name))
      && EntryOf(r, k) == EntryOf(fi, k).(validators := EntryOf(fi, k).validators + (if cond && k == name then [rule] else []))
  {
    AppendValidatorEntry(fi, name, rule, k);
    assert EntryOf(fi, k).validators + [] == EntryOf(fi, k).validators;
  }

  lemma InstanceStepEntry(host: Host, fi: FieldsInfo, inst: Instance, k: string)
    ensures k in InstanceStep(host, fi, inst).values <==> k in fi.values || (k == inst.fieldName && Listed(host, inst))
    ensures EntryOf(InstanceStep(host, fi, inst), k)
         == EntryOf(fi, k).(validators := EntryOf(fi, k).validators + (if k == inst.fieldName then InstanceRules(host, inst) else []))
  {
    var name := inst.fieldName;
    var afterRequired := if inst.required then AppendValidator(fi, name, IsNotEmptyRule) else fi;
    var req: seq<Rule> := if inst.required && k == name then [IsNotEmptyRule] else [];
    var img: seq<Rule> := if IsImageField(host, name) && k == name then [ValidateImageFieldRule] else [];
    AppendIfEntry(fi, inst.required, name, IsNotEmptyRule, k);
    AppendIfEntry(afterRequired, IsImageField(host, name), name, ValidateImageFieldRule, k);
    assert EntryOf(fi, k).validators + req + img == EntryOf(fi, k).validators + (req + img);
    assert (if k == name then InstanceRules(host, inst) else []) == req + img;
  }

  /** Every field's entry has no `property` and no `preprocess`; its validators are the label's
      `isNotEmpty`, then each instance's rules in instance order; and a field is listed exactly
      when it has at least one rule. */
  lemma {:induction false} FieldsInfoEntry(host: Host, labelKey: string, insts: seq<Instance>, k: string)
    ensures EntryOf(FieldsInfoOf(host, labelKey, insts), k) == FieldInfo(None, [], LabelRules(labelKey, k) + RulesFor(host, insts, k))
    ensures k in FieldsInfoOf(host, labelKey, insts).values <==> LabelRules(labelKey, k) + RulesFor(host, insts, k) != []
    decreases |insts|
  {
    var lab := LabelRules(labelKey, k);
    if insts == [] {
      assert RulesFor(host, insts, k) == [];
      assert lab + [] == lab;
    } else {
      var prefix, last := insts[..|insts| - 1], insts[|insts| - 1];
      FieldsInfoEntry(host, labelKey, prefix, k);
      EntryStep(host, FieldsInfoOf(host, labelKey, prefix), last, k, lab, RulesFor(host, prefix, k));
      assert RulesFor(host, insts, k) == RulesFor(host, prefix, k) + (if last.fieldName == k then InstanceRules(host, last) else []);
    }
  }

  /** One instance step extends the entry of `k` by that instance's rules when it is named `k`. */
  lemma EntryStep(host: Host, before: FieldsInfo, last: Instance, k: string, lab: seq<Rule>, rules: seq<Rule>)
    requires EntryOf(before, k) == FieldInfo(None, [], lab + rules)
    requires k in before.values <==> lab + rules != []
    ensures var more := if last.fieldName == k then InstanceRules(host, last) else [];
      && EntryOf(InstanceStep(host, before, last), k) == FieldInfo(None, [], lab + (rules + more))
      && (k in InstanceStep(host, before, last).values <==> lab + (rules + more) != [])
  {
    InstanceStepEntry(host, before, last, k);
    var more := if last.fieldName == k then InstanceRules(host, last) else [];
    assert lab + rules + more == lab + (rules + more);
  }

  /** An instance contributes a rule exactly when it is required or of image type. */
  lemma {:induction false} RulesForListed(host: Host, insts: seq<Instance>, k: string)
    ensures RulesFor(host, insts, k) != [] <==> exists i :: 0 <= i < |insts| && insts[i].fieldName == k && Listed(host, insts[i])
    decreases |insts|
  {
    if insts != [] {
      var prefix, last := insts[..|insts| - 1], insts[|insts| - 1];
      RulesForListed(host, prefix, k);
      if exists i :: 0 <= i < |insts| && insts[i].fieldName == k && Listed(host, insts[i]) {
        var i :| 0 <= i < |insts| && insts[i].fieldName == k && Listed(host, insts[i]);
        if i < |prefix| {
          assert prefix[i] == insts[i];
        }
      }
      if exists i :: 0 <= i < |prefix| && prefix[i].fieldName == k && Listed(host, prefix[i]) {
        var i :| 0 <= i < |prefix| && prefix[i].fieldName == k && Listed(host, prefix[i]);
        assert insts[i] == prefix[i];
      }
    }
  }

  /** A field is listed exactly when it is the label key, or some instance of it is required or of
      image type. */
  lemma FieldsInfoListed(host: Host, labelKey: string, insts: seq<Instance>, k: string)
    ensures k in FieldsInfoOf(host, labelKey, insts).values
        <==> LabelListed(labelKey, k) || exists i :: 0 <= i < |insts| && insts[i].fieldName == k && Listed(host, insts[i])
  {
    FieldsInfoEntry(host, labelKey, insts, k);
    RulesForListed(host, insts, k);
  }

  /** With one instance per field name, an instance's field carries `isNotEmpty` (if required)
      before `validateImageField` (if an image), after the label's own `isNotEmpty`. */
  lemma {:induction false} RulesForUnique(host: Host, insts: seq<Instance>, j: nat)
    requires j < |insts|
    requires forall a, b :: 0 <= a < b < |insts| ==> insts[a].fieldName != insts[b].fieldName
    ensures RulesFor(host, insts, insts[j].fieldName) == InstanceRules(host, insts[j])
    decreases |insts|
  {
    var k := insts[j].fieldName;
    var prefix := insts[..|insts| - 1];
    if j == |insts| - 1 {
      RulesForAbsent(host, prefix, k);
    } else {
      RulesForUnique(host, prefix, j);
    }
  }

  lemma {:induction false} RulesForAbsent(host: Host, insts: seq<Instance>, k: string)
    requires forall i :: 0 <= i < |insts| ==> insts[i].fieldName != k
    ensures RulesFor(host, insts, k) == []
    decreases |insts|
  {
    if insts != [] {
      RulesForAbsent(host, insts[..|insts| - 1], k);
    }
  }

  // ---- the rules ----

  /** `isNotEmpty`: one error exactly when the value is empty. */
  function NotEmptyRecords(field: string, v: Value): (rs: seq<Recorded>)
    ensures |rs| == (if IsEmpty(v) then 1 else 0)
    ensures forall r :: r in rs ==> r == Recorded(field, NotEmptyTemplate, map["@field" := field])
  {
    if IsEmpty(v) then [Recorded(field, NotEmptyTemplate, map["@field" := field])] else []
  }

  /** `isValidValue`: one error exactly when the host rejects the value for the property type. */
  function ValidValueRecords(host: Host, field: string, v: Value, propertyType: string): (rs: seq<Recorded>)
    ensures |rs| == (if host.verify(v, propertyType) then 0 else 1)
    ensures forall r :: r in rs ==> r.field == field && r.message == InvalidValueTemplate && "@value" in r.params && r.params["@value"] == StringOf(v)
  {
    if host.verify(v, propertyType) then []
    else [Recorded(field, InvalidValueTemplate, map["@value" := StringOf(v), "@field" := field])]
  }

  /** The resolution settings of every instance of the bundle can be read. */
  predicate SettingsOk(insts: seq<Instance>) {
    forall i :: 0 <= i < |insts| ==> Resolution.SettingOk(insts[i].maxResolution) && Resolution.SettingOk(insts[i].minResolution)
  }

  /** `validateImageField`: the instance's settings are looked up by the name it was given. */
  function ImageFieldRecords(host: Host, entityType: string, bundle: string, field: string, v: Value): seq<Recorded>
    requires SettingsOk(host.instances(entityType, bundle))
  {
    match FindInstance(host.instances(entityType, bundle), field)
    case None => []
    case Some(inst) => Resolution.ImageRecords(field, v, inst.maxResolution, inst.minResolution)
  }

  /** `$this->{$method}($name, $value)`: the errors it records ... */
  function RuleRecords(host: Host, entityType: string, bundle: string, rule: Rule, name: string, v: Value): seq<Recorded>
    requires SettingsOk(host.instances(entityType, bundle))
  {
    match rule
    case IsNotEmptyRule => NotEmptyRecords(name, v)
    case ValidateImageFieldRule => ImageFieldRecords(host, entityType, bundle, name, v)
    case CustomRule(m) => host.custom(m, name, v).calls
  }

  /** ... and the value it returns; the built-in rules return nothing (NULL). */
  function RuleResult(host: Host, rule: Rule, name: string, v: Value): Value {
    match rule
    case CustomRule(m) => host.custom(m, name, v).result
    case _ => Null
  }

  /** The errors of each rule of `rules` on the property `name` holding `v`. */
  function RuleChunks(host: Host, entityType: string, bundle: string, rules: seq<Rule>, name: string, v: Value): seq<seq<Recorded>>
    requires SettingsOk(host.instances(entityType, bundle))
  {
    seq(|rules|, i requires 0 <= i < |rules| => RuleRecords(host, entityType, bundle, rules[i], name, v))
  }

  /** The errors of running `rules` in order on the property `name` holding `v`. */
  function InvokeRecords(host: Host, entityType: string, bundle: string, rules: seq<Rule>, name: string, v: Value): seq<Recorded>
    requires SettingsOk(host.instances(entityType, bundle))
  {
    ConcatN(RuleChunks(host, entityType, bundle, rules, name, v), |rules|)
  }

  /** The wrapper write of one rule in `invokeMethods`: with `assign`, one write when its result
      differs from the value read, and what is written is the value read. */
  function RuleWrite(host: Host, rule: Rule, name: string, v: Value, assign: bool): seq<(string, Value)> {
    if assign && RuleResult(host, rule, name, v) != v then [(name, v)] else []
  }

  function WriteChunks(host: Host, rules: seq<Rule>, name: string, v: Value, assign: bool): seq<seq<(string, Value)>> {
    seq(|rules|, i requires 0 <= i < |rules| => RuleWrite(host, rules[i], name, v, assign))
  }

  /** The wrapper writes of `invokeMethods`, rule by rule. */
  function InvokeWrites(host: Host, rules: seq<Rule>, name: string, v: Value, assign: bool): seq<(string, Value)> {
    ConcatN(WriteChunks(host, rules, name, v, assign), |rules|)
  }

  /** `invokeMethods` writes back only the value it read, and nothing at all without `assign`. */
  lemma InvokeWritesShape(host: Host, rules: seq<Rule>, name: string, v: Value, assign: bool)
    ensures forall w :: w in InvokeWrites(host, rules, name, v, assign) ==> w == (name, v)
    ensures !assign ==> InvokeWrites(host, rules, name, v, assign) == []
  {
    var chunks := WriteChunks(host, rules, name, v, assign);
    ConcatNOnly(chunks, |rules|, (name, v));
    if !assign {
      ConcatNEmpty(chunks, |rules|);
    }
  }

  // ---- validate ----

  /** `isset($info['property']) ? $info['property'] : $field_name`. */
  function PropertyOf(name: string, info: FieldInfo): string {
    if info.property.Some? then info.property.value else name
  }

  /** Whether the loop body reads the field's property from the wrapper at all. */
  predicate Touches(host: Host, name: string, info: FieldInfo) {
    info.preprocess != [] || TypeInfoOf(host, name).propertyType.Some? || info.validators != []
  }

  function ValueOf(props: map<string, Value>, p: string): Value {
    if p in props then props[p] else Null
  }

  /** The errors one field contributes: pre-processors and validators under the property name,
      the type check under the field name and only for a truthy value. */
  function FieldRecords(host: Host, entityType: string, bundle: string, name: string, info: FieldInfo, v: Value): seq<Recorded>
    requires SettingsOk(host.instances(entityType, bundle))
  {
    var p := PropertyOf(name, info);
    var pt := TypeInfoOf(host, name).propertyType;
    InvokeRecords(host, entityType, bundle, info.preprocess, p, v)
    + (if pt.Some? && Truthy(v) then ValidValueRecords(host, name, v, pt.value) else [])
    + InvokeRecords(host, entityType, bundle, info.validators, p, v)
  }

  function FieldWrites(host: Host, name: string, info: FieldInfo, v: Value): seq<(string, Value)> {
    InvokeWrites(host, info.preprocess, PropertyOf(name, info), v, true)
  }

  function FieldAt(host: Host, entityType: string, bundle: string, fi: FieldsInfo, props: map<string, Value>, i: nat): seq<Recorded>
    requires SettingsOk(host.instances(entityType, bundle))
    requires i < |fi.keys|
  {
    var info := At(fi, i);
    FieldRecords(host, entityType, bundle, fi.keys[i], info, ValueOf(props, PropertyOf(fi.keys[i], info)))
  }

  /** The errors of each field, in field order. */
  function FieldChunks(host: Host, entityType: string, bundle: string, fi: FieldsInfo, props: map<string, Value>): seq<seq<Recorded>>
    requires SettingsOk(host.instances(entityType, bundle))
  {
    seq(|fi.keys|, i requires 0 <= i < |fi.keys| => FieldAt(host, entityType, bundle, fi, props, i))
  }

  /** The errors of the first `n` fields, in field order. */
  function PassRecords(host: Host, entityType: string, bundle: string, fi: FieldsInfo, props: map<string, Value>, n: nat): seq<Recorded>
    requires SettingsOk(host.instances(entityType, bundle))
    requires n <= |fi.keys|
  {
    ConcatN(FieldChunks(host, entityType, bundle, fi, props), n)
  }

  function FieldWriteChunks(host: Host, fi: FieldsInfo, props: map<string, Value>): seq<seq<(string, Value)>> {
    seq(|fi.keys|, i requires 0 <= i < |fi.keys| =>
      var info := At(fi, i);
      FieldWrites(host, fi.keys[i], info, ValueOf(props, PropertyOf(fi.keys[i], info))))
  }

  /** The wrapper writes of the first `n` fields, in field order. */
  function PassWrites(host: Host, fi: FieldsInfo, props: map<string, Value>, n: nat): seq<(string, Value)>
    requires n <= |fi.keys|
  {
    ConcatN(FieldWriteChunks(host, fi, props), n)
  }

  /** The wrapper throws on a property the entity does not have, at the first read of it. */
  predicate Blocked(host: Host, fi: FieldsInfo, props: map<string, Value>, i: nat)
    requires i < |fi.keys|
  {
    var info := At(fi, i);
    PropertyOf(fi.keys[i], info) !in props && Touches(host, fi.keys[i], info)
  }

  /** The index of the first field the wrapper throws on, or the number of fields. */
  function StopIndex(host: Host, fi: FieldsInfo, props: map<string, Value>, from: nat): (n: nat)
    requires from <= |fi.keys|
    ensures from <= n <= |fi.keys|
    ensures forall j :: from <= j < n ==> !Blocked(host, fi, props, j)
    ensures n < |fi.keys| ==> Blocked(host, fi, props, n)
    decreases |fi.keys| - from
  {
    if from == |fi.keys| then from
    else if Blocked(host, fi, props, from) then from
    else StopIndex(host, fi, props, from + 1)
  }

  /** The scan passes an unblocked field. */
  lemma StopIndexPast(host: Host, fi: FieldsInfo, props: map<string, Value>, i: nat)
    requires i < |fi.keys|
    requires StopIndex(host, fi, props, 0) >= i
    requires !Blocked(host, fi, props, i)
    ensures StopIndex(host, fi, props, 0) >= i + 1
  {
  }

  /** The scan stops at the first blocked field. */
  lemma StopIndexAt(host: Host, fi: FieldsInfo, props: map<string, Value>, i: nat)
    requires i < |fi.keys|
    requires StopIndex(host, fi, props, 0) >= i
    requires Blocked(host, fi, props, i)
    ensures StopIndex(host, fi, props, 0) == i
  {
  }

  /** The log after one field, from its three phases. */
  lemma FieldPhases(host: Host, entityType: string, bundle: string, name: string, info: FieldInfo, v: Value,
                    l1: seq<Recorded>, l2: seq<Recorded>, l3: seq<Recorded>, l4: seq<Recorded>)
    requires SettingsOk(host.instances(entityType, bundle))
    requires var p := PropertyOf(name, info);
             var pt := TypeInfoOf(host, name).propertyType;
             && l2 == l1 + InvokeRecords(host, entityType, bundle, info.preprocess, p, v)
             && l3 == l2 + (if pt.Some? && Truthy(v) then ValidValueRecords(host, name, v, pt.value) else [])
             && l4 == l3 + InvokeRecords(host, entityType, bundle, info.validators, p, v)
    ensures l4 == l1 + FieldRecords(host, entityType, bundle, name, info, v)
  {
    var p := PropertyOf(name, info);
    var pt := TypeInfoOf(host, name).propertyType;
    var pre := InvokeRecords(host, entityType, bundle, info.preprocess, p, v);
    var typed := if pt.Some? && Truthy(v) then ValidValueRecords(host, name, v, pt.value) else [];
    LogTwice(l1, pre, typed);
    LogTwice(l1, pre + typed, InvokeRecords(host, entityType, bundle, info.validators, p, v));
  }

  /** The message of the wrapper's exception for a missing property. */
  function UnknownProperty(p: string): string {
    "Unknown data property " + p + "."
  }

  /** The end of `validate` once every field ran: TRUE on a falsy squashed text, FALSE when
      silent, else the exception carrying the squashed text. */
  function Decide(render: (string, map<string, string>) -> string, errors: Store, silent: bool): Outcome<bool> {
    var text := Squash(render, errors);
    if EmptyString(text) then Returned(true)
    else if silent then Returned(false)
    else Threw(render(FailureTemplate, map["@errors" := text]))
  }

  /** `validate` returns TRUE exactly when no error was recorded during the call; otherwise FALSE
      when silent, and the exception with every error squashed into it when not. This holds for
      a formatter that never renders a message as "" or "0". */
  lemma DecideAfterPass(render: (string, map<string, string>) -> string, rs: seq<Recorded>, silent: bool)
    requires forall t, p :: !EmptyString(render(t, p))
    ensures Decide(render, AddAll(Empty(), rs), silent) == Returned(true) <==> rs == []
    ensures rs != [] && silent ==> Decide(render, AddAll(Empty(), rs), silent) == Returned(false)
    ensures rs != [] && !silent ==>
      Decide(render, AddAll(Empty(), rs), silent) == Threw(render(FailureTemplate, map["@errors" := Squash(render, AddAll(Empty(), rs))]))
  {
    SquashFalsyIff(render, rs);
  }
}
