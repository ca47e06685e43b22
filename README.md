# Component lifecycle and reactivity engine

A Dafny model of `src/framework/component.js`: the per-instance record (`vm.cache`) of a
mounted component and the operations that drive it.

- The record holds a dirty flag, the state of the configured public properties, the
  component definition (properties with their default initializer and attribute name,
  plus a set of observed attributes) and a set of listener sets. Each listener set
  belongs to one watched field of some component.
- **Create** builds the record dirty. It hands the instance's own fields to the field
  watcher. Then it applies defaults in two passes:
  - pass 1 writes each property's resolved default into the state;
  - pass 2 announces `(attrName, undefined, default)` for each property whose default
    is defined and whose attribute is observed.
- **Update** compares the new value with `!==` after replacing `null` by the default.
  A different value is written; an observed attribute gets a notification; a clean
  record is marked dirty. **Reset** is an update with the default.
- **Slot change** dirties the record. **Mark dirty** is the guarded clean-to-dirty
  transition.
- **Render** needs a dirty record. It deregisters the record from every listener set
  it is registered in, calls the render method and leaves the record clean. **Destroy** deregisters too.

Layout:

- `values.dfy` (module `Values`): JavaScript values, default initializers, virtual nodes.
- `definition.dfy` (module `Definition`): the component definition and what default
  application derives from it.
- `reactive.dfy` (module `Reactive`): the record's reactive part as a value, and
  update / reset as functions on it.
- `component.dfy` (module `Component`): the record as a class `VM`, with one method per
  operation. Update, reset and the two default passes are proved against the functions
  above; the other methods state their effect directly. The listener sets are a
  class `DepSet`. A client method `CounterScenario` takes a one-property counter
  through create, update, render, a repeated update, a reset by `null`, one listener
  registration and destroy.

Collaborators become parameters or abstract steps:

- `getComponentDef(Ctor)` becomes the definition passed to the constructor.
- `invokeComponentConstructor` becomes its result: the instance and the names of its
  own fields.
- `watchProperty` becomes appending the field name to `watched`.
- The field watcher's registration of a read becomes `VM.Track`.
- `invokeComponentRenderMethod` becomes a total function from the property state to a
  virtual node.
- `invokeComponentAttributeChangedCallback` becomes appending
  `AttributeChanged(attrName, old, new)` to the record's `log`.
- The process-wide `isRendering` flag is an explicit `isRendering` parameter of the
  operations that check it.
- The property getter returns `state[p]`, so the model reads the field directly.
- The public setter always fails, so the model has no public write operation.

Two points of ordering and representation follow the code exactly:

- The instance's fields are watched (component.js:150) before the defaults are written
  (component.js:151). The constructor therefore ensures `stateAtWatch == map[]`.
- `listeners` is a set of listener sets, each a `Set<VM>` (component.js:65), not a set
  of records, and that is how it is modelled.

## Model

| member | source | states |
|---|---|---|
| `Definition.AnnouncedProps` | src/framework/component.js:43-51 | a property is announced by default application if and only if it is configured, its default is not `undefined` and its attribute is observed (`null` and `0` defaults are announced); with distinct names, the announced properties are distinct, so each is announced at most once |
| `Definition.NotificationsOfAnnounced` | src/framework/component.js:43-51 | pass 2 issues exactly one notification per announced property, in configuration order: the i-th is `(attrName, undefined, default)` of the i-th announced property |
| `Definition.DefaultNotificationsExact` | src/framework/component.js:38-51 | for a well-formed definition, the notifications of default application correspond one to one with the configured properties whose default is defined and whose attribute is observed, each carrying `(attrName, undefined, default)` |
| `Definition.DefaultNotificationShape` | src/framework/component.js:48-49 | every default notification reports an observed attribute changing from `undefined` to a defined value |
| `Definition.DefaultsOfOrder` | src/framework/component.js:22-42 | writing the defaults of the enumerated properties gives every configured property its resolved default, and nothing else |
| `Reactive.Update` | src/framework/component.js:69-92 | `null` is replaced by the resolved default first (line 78). Writing the value already held changes nothing. Otherwise the property takes the new value, every other property and the key set are untouched, exactly one `(attrName, old, new)` notification is appended if and only if the attribute is observed, and the record ends dirty |
| `Reactive.Reset` | src/framework/component.js:94-114 | resetting equals updating with the resolved default (line 101) and equals updating with `null` |
| `Reactive.UpdateIdempotent` | src/framework/component.js:80-82 | repeating an update with the same value changes nothing more |
| `Component.VM.constructor` | src/framework/component.js:125-152 | requires an HTML element host. The new record is dirty, every configured property holds its resolved default, the log is exactly the default notifications, no listener is registered, all own fields are watched, and the watching happened before any default was written |
| `Component.VM.WatchComponentProperties` | src/framework/component.js:54-60 | every own field of the instance, in order, is handed to the field watcher; the state at that moment is recorded |
| `Component.VM.InitComponentProps` | src/framework/component.js:17-52 | the state ends with every configured property's default and the log grows by exactly the default notifications |
| `Component.VM.WriteDefaults` | src/framework/component.js:22-42 | pass 1 writes the resolved default (`Values.Resolve`: a literal as it is, a function's call result, lines 39-40) of every configured property and nothing else |
| `Component.VM.AnnounceDefaults` | src/framework/component.js:43-51 | pass 2 runs only once every default is in place, does not touch the state, and appends exactly the default notifications |
| `Component.VM.AnnounceDefault` | src/framework/component.js:44-50 | for one property, with all defaults in place: notifies `(attrName, undefined, default)` exactly when the property is announced |
| `Component.VM.InvokeAttributeChangedCallback` | src/framework/component.js:49 | a callback appends one `(attrName, old, new)` entry to the log and changes nothing else |
| `Component.VM.ClearListeners` | src/framework/component.js:62-67 | this record is removed from every listener set it was registered in, no other member of those sets changes, and the registry ends empty |
| `Component.VM.Track` | src/framework/component.js:65 | the field watcher's registration, which line 65 undoes: this record is added to the field's listener set and that set to this record's registry |
| `Component.VM.UpdateComponentProp` | src/framework/component.js:69-92 | requires no render in progress and a configured property; the new dirty flag, state and log are those of `Reactive.Update`, and the guarded mark-dirty call never trips the double-dirty assertion |
| `Component.VM.ResetComponentProp` | src/framework/component.js:94-114 | requires no render in progress and a configured property; the new dirty flag, state and log are those of `Reactive.Reset` |
| `Component.VM.UpdateComponentSlots` | src/framework/component.js:116-123 | the record ends dirty and nothing else changes; a render in progress is fatal only when the record was clean |
| `Component.VM.MarkComponentAsDirty` | src/framework/component.js:169-174 | requires a clean record and no render in progress; its only effect is `isDirty := true` |
| `Component.VM.RenderComponent` | src/framework/component.js:154-162 | requires a dirty record; ends clean with no registered listener, the record removed from every listener set it was registered in, and the output computed from the property state |
| `Component.VM.DestroyComponent` | src/framework/component.js:164-167 | the record is removed from every listener set it was registered in and its registry ends empty |
| `Component.VM.DestroyIsIdempotent` | src/framework/component.js:164-167 | destroying twice has exactly the effect of destroying once |

## Left out

- The tamper check through `Object.getOwnPropertyDescriptor` (component.js:23-26) is
  not modelled. It is JavaScript object-model reflection.
- The accessor installation through `Object.defineProperty` (component.js:27-37) and
  the prototype installation through `Object.setPrototypeOf` (component.js:142-148) are
  not modelled either. Properties are an explicit map, and the record is an object.
- The always-failing public setter (component.js:32-34) is modelled as the absence of a
  public write operation.
- The getter is `state[p]`. The proxy that `getAttributeProxy` puts around object
  values (component.js:30) belongs to an external collaborator whose behaviour is not
  shown.
- The `console.log` tracing and the `toString` helper are diagnostics only.
- `assert.vm` is a runtime type check; the Dafny types make it hold.
- invoker.js, watcher.js, def.js and attributes.js are not part of this model. Their
  functions appear only through the parameters and abstract steps listed above.
- The render method is a pure function of the property state. Any dependency it
  registers while running is not modelled, so `listeners` is empty when a render ends.
  `Track` models a registration as a separate step.
- Whatever the render, constructor and callback collaborators do beyond their results
  (re-entrant updates, for example) is not modelled.
- `isRendering` is imported from invoker.js (component.js:9). What sets and clears it is
  not part of this model, so the flag is a parameter of the operations that read it.
- The `isScheduled`, `context`, `shadowRoot` and `prevNode` cache fields are never read
  by this file and are not modelled.
- `Resolve` treats a `Thunk` as returning the same value on every call. A default
  function that returns a fresh object each time, so that a reset always counts as a
  change, is not modelled.
- Numbers are integers. Floating point, and `NaN !== NaN` in particular, is not
  modelled.
- `for…in` also enumerates inherited keys, and `hasOwnProperty` checks own keys only.
  The model's configuration has own keys only, enumerated once each in `order`.
- `observedAttrs[attrName]` (component.js:48, 84, 106) is a truthiness lookup on a plain
  object, so it also finds inherited keys such as `constructor`. The model uses
  membership in a set of attribute names, which has no inherited entries.
- Two changing updates in a row dirty the record only once; the model has no dirtying
  counter. What is proved is that update, reset and slot change call
  `MarkComponentAsDirty` only on a clean record, because its precondition must hold.
- packages/@lwc/babel-plugin-component/src/decorators/wire/validate.js is not part of
  this model. It holds compile-time checks against a library that is not shown.
- The template compiler's expected-output fixture is not part of this model. It is
  generated code.
- The accessibility integration-test components are not part of this model. They are
  DOM event plumbing.
