# Entity validator: a Dafny model

This project models the three validator base classes of the Drupal `entity_validator` module:

- **`EntityValidateBase`** is the per-entity engine (module `EntityValidation`).
  - `getFieldsInfo` builds the rule list of an entity type and bundle: the label key gets `isNotEmpty`, a required instance gets `isNotEmpty`, and an image field gets `validateImageField`.
  - `validate` first clears the errors. With no field it answers TRUE at once. Otherwise, field by field, it runs the pre-processors (writing back through the entity wrapper), then the type check of a truthy value, then the validators. It ends with TRUE, FALSE (silent) or an exception carrying the squashed errors.
  - Errors live in a per-field ordered store.
    - `setError` appends one entry and stamps `@field` on it.
    - `getErrors` returns the store, or every entry formatted and joined with `"\n\r"`.
    - `clearErrors` empties the store.
- **`AbstractEntityValidate`** is the throwing field-bag engine (module `AbstractEntityValidation`).
  - Each field of the bag goes through an exclusive chain:
    1. required and empty;
    2. otherwise a type failure, which ends the field's round;
    3. otherwise every rejecting `node_validator_callback`.
  - Every violation is appended to a flat error list that is never cleared.
  - `validate` throws while that list is non-empty, with the errors joined by `", "`.
- **`AbstractValidate`** is the field-bag engine with a severity policy (module `SeverityValidation`).
  - Registered pre-validate functions run first, in registration order; missing ones are skipped.
  - The same exclusive chain then runs field by field.
  - Each violation goes to `setError`, which compares the error level strictly:
    - level 0 buffers the message;
    - level 1 queues it for display (`drupal_set_message`);
    - any other level throws it, and the validation stops there.

Shared modules:

- `Values` holds PHP values: NULL, booleans, integers, strings, lists, and images with a width and a height. It also holds `empty()`, truthiness and string conversion, and `Outcome`, which is either a returned value or a thrown exception with its message.
- `Strings` holds decimal digits, number printing and parsing, and `implode`.
- `OrderedMaps` models PHP arrays with string keys, which remember insertion order.
- `DrupalHost` holds the Drupal lookups the validators call. It is one record of functions: entity keys, field instances, field types and their callbacks, `entity_property_verify_data_type`, message formatting, custom validator methods, `function_exists` and the pre-validate functions.
- `ErrorStore` holds the per-field error store of the base class and the generic "concatenate the first n chunks" function that every loop's log invariant uses.
- `EntityRules` and `Resolution` hold the specification functions of the base class. They give the rule list, the records and writes of each field, the stopping point of the pass and the final decision. `Resolution` covers the `"AxB"` resolution settings and the four image bound checks.
- `FieldChecks` holds the exclusive check chain shared by the two field-bag engines.

State that the PHP code changes in place is modelled as fields of Dafny classes, changed by methods with `modifies` clauses. Each loop is proved against a specification function.

- The errors of `EntityValidateBase` are kept as the sequence of `setError` calls since the last clear (`calls`). The PHP array is the function `Errors()` of that log.
- Both field-bag engines state their new error list, or their buffer and display queue, as the old one plus the messages of a whole pass.
- The entity behind `entity_metadata_wrapper` is a class with a property map and a log of every `set`.

Take an image field whose `max_resolution` is "200x150" and whose `min_resolution` is "100x50", and an image 60 wide and 90 high. The code reads both settings as height "x" width, so the minimum height is 100 and the minimum width 50, and the only error recorded is the minimum-height one: 90 < 100 (`Resolution.WorkedExample`). The mislabelled message texts of `validateImageField` are kept as they are, since they are only strings.

## Model

| member | source | states |
|---|---|---|
| EntityValidation.EntityValidateBase.constructor | includes/EntityValidateBase.php:42-46 | entity type and bundle come from the plugin definition; the error store starts empty |
| EntityValidation.EntityValidateBase.SetBundle | includes/EntityValidateBase.php:51-55 | `getBundle` then returns the given bundle |
| EntityValidation.EntityValidateBase.SetEntityType | includes/EntityValidateBase.php:67-70 | `getEntityType` then returns the given entity type |
| EntityValidation.EntityValidateBase.GetFieldsInfo | includes/EntityValidateBase.php:82-113 | the loop builds exactly the rule list `FieldsInfoOf` of the label key and the bundle's instances, and lists no field twice |
| EntityRules.FieldsInfoDistinct | includes/EntityValidateBase.php:82-113 | the rule list names each field once, however many instances append to it |
| EntityRules.FieldsInfoListed | includes/EntityValidateBase.php:82-113 | a field is in the rule list iff it is the non-empty label key, or an instance of it is required or of image type |
| EntityRules.FieldsInfoEntry | includes/EntityValidateBase.php:88-110 | a field's validators are the label rule, then each instance's rules in instance order, and nothing else |
| EntityRules.RulesForUnique | includes/EntityValidateBase.php:98-110 | with distinct instance names, an instance's rules are `isNotEmpty` (if required) before `validateImageField` (if an image) |
| EntityValidation.EntityValidateBase.Validate | includes/EntityValidateBase.php:118-159 | errors are cleared first; no field gives TRUE with no error and no write; otherwise the new store is exactly the records of the fields run, the wrapper's writes are those of the pre-processors, the entity's values are unchanged, and the outcome is the wrapper's exception at the first unknown property, or else the decision on the store |
| EntityValidation.EntityValidateBase.RunFields | includes/EntityValidateBase.php:128-146 | fields run in order up to the first one whose property the entity lacks; the log grows by exactly their records and writes |
| EntityValidation.EntityValidateBase.ValidateField | includes/EntityValidateBase.php:129-145 | one field: pre-processor records, then the type check only for a truthy value, then validator records; the validators write nothing |
| EntityRules.DecideAfterPass | includes/EntityValidateBase.php:148-158 | with a formatter that never yields a falsy text: TRUE iff no error was recorded in the call, FALSE when silent, otherwise an exception carrying the squashed errors |
| EntityValidation.EntityValidateBase.InvokeMethods | includes/EntityValidateBase.php:173-184 | each method runs on the value read; the log grows by each method's records in order; the writes are the value read, and the entity's values never change |
| EntityRules.InvokeWritesShape | includes/EntityValidateBase.php:179-181 | every write made by `invokeMethods` is the property with the value read, never a method's result; without `assign_value` there is none |
| EntityValidation.EntityValidateBase.InvokeOne | includes/EntityValidateBase.php:175-182 | one method: its records are appended, and a write of the value read happens iff assigning and the result differs |
| EntityValidation.EntityValidateBase.CallMethod | includes/EntityValidateBase.php:178 | `$this->{$method}` dispatches to `isNotEmpty`, `validateImageField` or a custom method; a custom method's `setError` calls, each with its own field, message and parameters, are logged in its order, and its result is returned |
| EntityValidation.EntityValidateBase.SetError | includes/EntityValidateBase.php:189-192 | one call is logged, and the store is the old store with that one entry added |
| ErrorStore.Add | includes/EntityValidateBase.php:189-192 | exactly one entry is appended to the field's list, and every other field's list is unchanged; a new field goes last |
| ErrorStore.Stamp | includes/EntityValidateBase.php:190 | the stored entry keeps the message and every other parameter, and has `@field` forced to the field name; its parameter keys are exactly the given ones plus `@field` |
| ErrorStore.AddAllEntries | includes/EntityValidateBase.php:189-192 | after a sequence of calls, each field's list is its old list plus that field's entries, in call order |
| EntityValidation.EntityValidateBase.GetErrors | includes/EntityValidateBase.php:197-211 | unsquashed gives the store itself; squashed gives every entry formatted, field by field and entry by entry, joined with "\n\r" |
| ErrorStore.SquashEmpty | includes/EntityValidateBase.php:197-211 | the squashed errors of an empty store are the empty string, for any formatter |
| ErrorStore.SquashFalsyIff | includes/EntityValidateBase.php:197-211 | with a formatter that never yields a falsy text, the squashed errors are falsy iff no error was recorded |
| EntityValidation.EntityValidateBase.ClearErrors | includes/EntityValidateBase.php:216-218 | the store is empty |
| EntityValidation.EntityValidateBase.IsNotEmpty | includes/EntityValidateBase.php:230-238 | logs the records of `NotEmptyRecords`, which has exactly one "cannot be empty" entry for the field iff the value is empty |
| EntityRules.NotEmptyRecords | includes/EntityValidateBase.php:230-238 | one record iff the value is empty, and it is the "cannot be empty" message with `@field` |
| EntityValidation.EntityValidateBase.IsValidValue | includes/EntityValidateBase.php:254-263 | logs the records of `ValidValueRecords`: one "invalid" entry iff the type check rejects the value |
| EntityRules.ValidValueRecords | includes/EntityValidateBase.php:254-263 | one record iff the type check rejects the value, carrying the value as `@value` |
| EntityValidation.EntityValidateBase.ValidateImageField | includes/EntityValidateBase.php:268-310 | logs exactly the image records of the instance's settings; a field with no instance adds nothing |
| EntityValidation.EntityValidateBase.CheckMaximum | includes/EntityValidateBase.php:277-292 | the `max_resolution` half: its records, and the parameters extended with both maximum components |
| EntityValidation.EntityValidateBase.CheckMinimum | includes/EntityValidateBase.php:294-309 | the `min_resolution` half: its records, and the parameters extended with both minimum components |
| Resolution.ResolutionRoundTrip | includes/EntityValidateBase.php:278 | splitting "AxB" at the "x" gives back the two numbers that were written |
| Resolution.ImageChecksIndependent | includes/EntityValidateBase.php:268-310 | the four checks run independently, in order max width, max height, min width, min height, each adding one error iff its bound is crossed, with the first component read as height |
| Resolution.UnsetSettingsAddNothing | includes/EntityValidateBase.php:277-294 | empty settings add no error |
| Resolution.MaxUnsetOnlyMin | includes/EntityValidateBase.php:277-307 | an unset maximum adds no error whatever the minimum is: the records are the minimum's alone, and their parameters hold no maximum bound |
| Resolution.MinUnsetOnlyMax | includes/EntityValidateBase.php:277-307 | an unset minimum adds no error whatever the maximum is: the records are the maximum's alone |
| Resolution.NonImageValue | includes/EntityValidateBase.php:268-310 | a value without dimensions (NULL, a boolean, a number, a list or "") never exceeds a maximum and is below every minimum |
| Resolution.WorkedExample | includes/EntityValidateBase.php:268-310 | max "200x150", min "100x50", image 60x90 gives only the minimum-height error |
| AbstractEntityValidation.AbstractEntityValidate.constructor | includes/AbstractEntityValidate.php:13-34 | the field bag and the error list start empty |
| AbstractEntityValidation.AbstractEntityValidate.SetBundle | includes/AbstractEntityValidate.php:39-43 | `getBundle` then returns the given bundle |
| AbstractEntityValidation.AbstractEntityValidate.SetEntityType | includes/AbstractEntityValidate.php:55-58 | `getEntityType` then returns the given entity type |
| AbstractEntityValidation.AbstractEntityValidate.AddField | includes/AbstractEntityValidate.php:70-73 | the key takes the value, a new key goes last, every other key keeps its presence and value, and no key is listed twice if none was |
| AbstractEntityValidation.AbstractEntityValidate.SetFields | includes/AbstractEntityValidate.php:78-88 | `getFields` then returns exactly the given bag |
| AbstractEntityValidation.AbstractEntityValidate.Validate | includes/AbstractEntityValidate.php:93-134 | the error list grows by exactly the messages of a pass over the bag; the outcome is TRUE iff the list is empty; errors held from an earlier call make it throw |
| AbstractEntityValidation.AbstractEntityValidate.CheckField | includes/AbstractEntityValidate.php:94-123 | one field adds exactly the messages of the exclusive chain |
| AbstractEntityValidation.AbstractEntityValidate.RunCallbacks | includes/AbstractEntityValidate.php:116-122 | every callback runs in declared order, and each rejection appends one format message |
| AbstractEntityValidation.Verdict | includes/AbstractEntityValidate.php:126-133 | TRUE iff no error is held; otherwise an exception |
| AbstractEntityValidation.VerdictSticky | includes/AbstractEntityValidate.php:126-141 | once an error is held, every later verdict throws, whatever is appended, with all errors joined by ", " |
| AbstractEntityValidation.AbstractEntityValidate.SetError | includes/AbstractEntityValidate.php:139-141 | the message is appended at the end |
| FieldChecks.FieldMessagesChain | includes/AbstractEntityValidate.php:100-122 | the checks are exclusive: required and empty gives one message; otherwise a type failure gives one message and no callback; otherwise one format message per rejecting callback |
| FieldChecks.CallbackMessagesCount | includes/AbstractValidate.php:129-135 | the callbacks give one message per rejecting callback, and none iff every callback accepts |
| FieldChecks.FirstViolation | includes/AbstractValidate.php:107-137 | a pass gives no message iff no field gives one; otherwise its first message is the first message of the first field that gives one |
| SeverityValidation.AbstractValidate.constructor | includes/AbstractValidate.php:10-52 | the error level starts at 1; the pre-validate list starts empty |
| SeverityValidation.AbstractValidate.SetBundle | includes/AbstractValidate.php:57-61 | the bundle is the given one |
| SeverityValidation.AbstractValidate.SetEntity | includes/AbstractValidate.php:66-69 | the entity type is the given one |
| SeverityValidation.AbstractValidate.AddField | includes/AbstractValidate.php:74-78 | only the given key changes, and no key is listed twice if none was |
| SeverityValidation.AbstractValidate.SetFields | includes/AbstractValidate.php:90-93 | the bag is replaced, and the new bag is returned, not the validator |
| SeverityValidation.AbstractValidate.Validate | includes/AbstractValidate.php:98-138 | the pre-validate functions run first; then the buffer, display queue and outcome are exactly those of delivering the pass's messages at the error level |
| SeverityValidation.AbstractValidate.RunPreValidate | includes/AbstractValidate.php:99-105 | the bag is the result of the registered functions that exist, in registration order |
| SeverityValidation.HooksRunExisting | includes/AbstractValidate.php:99-105 | running the list with the existence check is running exactly the existing functions, in order, none skipped |
| SeverityValidation.AbstractValidate.RunFields | includes/AbstractValidate.php:107-137 | fields are checked in order, each field's messages delivered, up to the first exception |
| SeverityValidation.AbstractValidate.CheckField | includes/AbstractValidate.php:108-136 | one field delivers exactly the messages of the exclusive chain |
| SeverityValidation.AbstractValidate.RunCallbacks | includes/AbstractValidate.php:129-135 | callbacks run in order, each rejection delivered, up to the first exception |
| SeverityValidation.ThrowsAtFirstViolation | includes/AbstractValidate.php:107-152 | at a throwing level, nothing is buffered or shown; the validation throws iff some field violates, and with the first message of the first violating field |
| SeverityValidation.AbstractValidate.SetError | includes/AbstractValidate.php:143-153 | level 0 appends to the buffer; level 1 shows the message and leaves the buffer; any other level, compared strictly, throws the message and changes nothing |
| SeverityValidation.DeliverByLevel | includes/AbstractValidate.php:143-153 | for a whole list of messages: level 0 never throws and appends them all in order; level 1 shows them all; any other level buffers nothing and throws iff there is a message |
| SeverityValidation.DeliverAppend | includes/AbstractValidate.php:143-153 | delivering two lists one after the other is delivering their concatenation, unless the first threw |
| SeverityValidation.BufferAccumulates | includes/AbstractValidate.php:144-146 | at level 0 successive validations accumulate their messages in order and never clear |
| SeverityValidation.AbstractValidate.SetErrorLevel | includes/AbstractValidate.php:158-161 | the level is exactly the given value |
| SeverityValidation.AbstractValidate.AddMetaData | includes/AbstractValidate.php:173-176 | only the given key changes, and no key is listed twice if none was |
| SeverityValidation.AbstractValidate.PreValidateRegister | includes/AbstractValidate.php:188-191 | the function name is appended after those registered before |

## Left out

- Drupal lookups are parameters of type `Host`, not re-implemented. These are `entity_get_info`, `field_info_instances`, `field_info_field` with `field_info_field_types`, `field_info_instance`, `entity_property_verify_data_type`, `function_exists` and custom validator methods.
- `t`, `format_string` and HTML escaping are one opaque function of a template and its parameters.
- `drupal_set_message` appends to a `MessageQueue` object; its display is outside the model.
- Dynamic dispatch (`$this->{$method}`, `call_user_func_array`) is a `Rule` datatype with a fixed dispatch, plus host functions for custom methods, callbacks and pre-validate functions.
- A `node_validator_callback` receives the validator object in PHP. The model's callback sees only the callback name and the value, so a callback that reads or changes the validator is not modelled.
- A pre-validate function receives the validator in PHP. The model's function can only replace the field bag, so one that changes the error level, the entity type or the registered list is not modelled.
- `invokeMethods` compares with PHP's loose `!=`. The model uses structural inequality of values, so loose equalities such as `0 == "0"` are not modelled.
- Floats, objects and PHP arrays with integer keys are not among the modelled values. Integers are unbounded, so an overflow of an image dimension is not modelled.
- `AbstractValidate` leaves `$fields`, `$errors` and `$metaData` NULL until first set. The model starts them as empty arrays, so a getter called before any set returns an empty array where PHP returns NULL. An unset entity type or bundle reads as "".
- The setters' `return $this` (method chaining) is not modelled.
- The TODO stubs of includes/AbstractEntityValidate.php:148-222 have no behaviour and are not modelled.
- The constructor's plugin array is kept only for its entity type and bundle.
- `EntityWrapper` is a stand-in for `entity_metadata_wrapper`. Reading a property the entity lacks throws an exception whose text (`EntityRules.UnknownProperty`) is a stand-in for the wrapper's own message.
- EntityValidation.EntityValidateBase.Validate: takes the rule list as a parameter, because a subclass may override `getFieldsInfo`. It is given the result of `GetFieldsInfo` or of such an override.
- EntityValidation.EntityValidateBase.Validate: requires every resolution setting of the bundle to be unset or of the form digits "x" digits (`EntityRules.SettingsOk`). `explode` on any other text is not modelled.
- EntityRules.DecideAfterPass: assumes a formatter that never produces "" or "0" for a message. With such a message PHP's falsy check would answer TRUE despite recorded errors; `Decide` itself follows the code for any formatter.
- ErrorStore.SquashFalsyIff: assumes a formatter that never produces "" or "0", for the same reason.
- The distinctness of an ordered map's keys is not part of the type. It is proved of the rule list (`EntityRules.FieldsInfoDistinct`) and kept by every setter that adds a key.
- EntityValidation.EntityValidateBase.CallMethod: a custom validator method is modelled by the value it returns and the `setError` calls it makes. One that throws, or that calls other methods of the validator (`clearErrors`, the setters), is not modelled, because its effect would be arbitrary code of a subclass.
- Resolution.NonImageValue: is not stated for a non-empty string value. PHP 5 to 7 reads `$value['width']` of such a string as its first character, with a warning, and PHP 8 throws; the model reads it as NULL.
- EntityValidation.EntityValidateBase.ValidateImageField: a non-empty string value is read as having no width and no height (see the line above), so its records are not those of the code for that value.
- Loops and loop bodies are methods of their own, so each proof stays small: `RunFields`, `RunField`, `ValidateField`, `InvokeAt`, `InvokeOne`, `ReplayCalls`, `CheckFields`, `CheckFieldAt`, `CheckField`, `RunCallbacks`, `RunCallback`, `RunPreValidate`, and `CheckMaximum` / `CheckMinimum` as the two halves of `validateImageField`.
- SeverityValidation.ThrowsAtFirstViolation: "no later field is examined" is stated through the outcome and the untouched buffer and queue. The host functions are pure, so examining a field has no other visible effect.
