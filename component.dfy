/** The instance record of a mounted component and its lifecycle operations:
    create, update / reset of a property, slot change, mark dirty, render,
    destroy and the listener bookkeeping. Every operation changes the record
    in place; the pure functions of modules Definition and Reactive say what
    the new state is. */
module Component {
  import opened Values
  import opened Definition
  import opened Reactive

  /** The host node a record is bound to. */
  datatype Host = HTMLElement(tag: string) | OtherNode

  /** The listener set of one watched field: the records whose last render read it. */
  class DepSet {
    var members: set<VM>

    constructor ()
      ensures members == {}
    {
      members := {};
    }
  }

  /** An instance record and its cache. `isRendering`, the process-wide "a render
      is in progress" flag, is passed explicitly to the operations that check it. */
  class VM {
    const def: ComponentDef
    const elm: Host
    /** The instance the component constructor produced. */
    const component: Value
    var isDirty: bool
    var state: map<string, Value>
    /** The dependency sets this record is registered in. */
    var listeners: set<DepSet>
    /** The attribute-changed callbacks issued for this record, in order. */
    var log: seq<Notification>
    /** The own fields of the instance handed to the field watcher, in order. */
    var watched: seq<string>
    /** The property state when the instance's fields were put under watch. */
    ghost var stateAtWatch: map<string, Value>

    ghost predicate Valid()
      reads this
    {
      WellFormed(def) && state.Keys == def.props.Keys
    }

    /** Every configured property holds its resolved default. */
    ghost predicate DefaultsInPlace()
      reads this
    {
      forall p :: p in def.props ==> p in state && state[p] == DefaultOf(def, p)
    }

    /** The reactive part of the record as a value. */
    function Snapshot(): Record
      reads this
    {
      Record(isDirty, state, log)
    }

    /** Creating the record for a component type whose definition is `def`, bound
        to `elm`; `component` and `ownFields` are what the component constructor
        produced: the instance and the names of its own fields. */
    constructor (def: ComponentDef, elm: Host, component: Value, ownFields: seq<string>)
      requires elm.HTMLElement?
      requires WellFormed(def)
      ensures Valid()
      ensures this.def == def && this.elm == elm && this.component == component
      ensures isDirty
      ensures state == Defaults(def)
      ensures log == DefaultNotifications(def)
      ensures listeners == {}
      ensures watched == ownFields
      ensures stateAtWatch == map[]
    {
      this.def := def;
      this.elm := elm;
      this.component := component;
      isDirty := true;
      state := map[];
      listeners := {};
      log := [];
      watched := [];
      stateAtWatch := map[];
      new;
      WatchComponentProperties(ownFields);
      InitComponentProps();
    }

    /** Hands every own field of the instance to the field watcher. */
    method WatchComponentProperties(ownFields: seq<string>)
      modifies this`watched, this`stateAtWatch
      ensures watched == old(watched) + ownFields
      ensures stateAtWatch == state
    {
      stateAtWatch := state;
      var i := 0;
      while i < |ownFields|
        invariant 0 <= i <= |ownFields|
        invariant watched == old(watched) + ownFields[..i]
        invariant stateAtWatch == state
      {
        watched := watched + [ownFields[i]];
        i := i + 1;
      }
    }

    /** Default application: pass 1 writes every property's default into the
        state, pass 2 then announces the defined defaults of observed attributes. */
    method InitComponentProps()
      requires WellFormed(def)
      modifies this`state, this`log
      ensures state == old(state) + Defaults(def) && DefaultsInPlace()
      ensures log == old(log) + DefaultNotifications(def)
    {
      WriteDefaults();
      AnnounceDefaults();
    }

    /** Pass 1: every configured property receives its resolved default. */
    method WriteDefaults()
      requires WellFormed(def)
      modifies this`state
      ensures state == old(state) + Defaults(def)
    {
      var order := def.order;
      var i := 0;
      while i < |order|
        invariant 0 <= i <= |order|
        invariant state == old(state) + DefaultsOf(def, order[..i])
      {
        var p := order[i];
        assert order[..i + 1] == order[..i] + [p];
        DefaultsOfSnoc(def, old(state), order[..i], p);
        state := state[p := Resolve(def.props[p].initializer)];
        i := i + 1;
      }
      assert order[..i] == order;
      DefaultsOfOrder(def);
    }

    /** Pass 2: announces `(attrName, undefined, state[p])` for every configured `p`
        whose value is defined and whose attribute is observed. */
    method AnnounceDefaults()
      requires WellFormed(def)
      requires DefaultsInPlace()
      modifies this`log
      ensures log == old(log) + DefaultNotifications(def)
    {
      var order := def.order;
      ghost var log0 := log;
      var j := 0;
      while j < |order|
        invariant 0 <= j <= |order|
        invariant log == log0 + NotificationsOf(def, order[..j])
      {
        var p := order[j];
        assert order[..j + 1] == order[..j] + [p];
        NotificationsOfSnoc(def, order[..j], p);
        AnnounceDefault(p);
        j := j + 1;
      }
      assert order[..j] == order;
    }

    /** The body of pass 2 for property `p`. It runs, and so the callback fires,
        only once every property's default is in place. */
    method AnnounceDefault(p: string)
      requires p in def.props && DefaultsInPlace()
      modifies this`log
      ensures log == old(log) + (if Announced(def, p) then [DefaultNotification(def, p)] else [])
    {
      var attrName := def.props[p].attrName;
      var defaultValue := state[p];
      if defaultValue != Undefined && attrName in def.observedAttrs {
        InvokeAttributeChangedCallback(attrName, Undefined, defaultValue);
      }
    }

    /** The attribute-changed callback, as an entry appended to the record's log. */
    method InvokeAttributeChangedCallback(attrName: string, oldValue: Value, newValue: Value)
      modifies this`log
      ensures log == old(log) + [AttributeChanged(attrName, oldValue, newValue)]
    {
      log := log + [AttributeChanged(attrName, oldValue, newValue)];
    }

    /** Removes this record from every dependency set it is registered in, then
        forgets them all. */
    method ClearListeners()
      modifies this`listeners, listeners
      ensures listeners == {}
      ensures forall d :: d in old(listeners) ==> d.members == old(d.members) - {this}
    {
      var pending := listeners;
      while pending != {}
        invariant listeners == old(listeners) && pending <= listeners
        invariant forall d :: d in old(listeners) && d !in pending ==> d.members == old(d.members) - {this}
        invariant forall d :: d in pending ==> d.members == old(d.members)
        decreases pending
      {
        var d :| d in pending;
        d.members := d.members - {this};
        pending := pending - {d};
      }
      listeners := {};
    }

    /** The field watcher's registration of a read of the field whose listener
        set is `dep`. */
    method Track(dep: DepSet)
      modifies this`listeners, dep
      ensures listeners == old(listeners) + {dep}
      ensures dep.members == old(dep.members) + {this}
    {
      dep.members := dep.members + {this};
      listeners := listeners + {dep};
    }

    /** Updates property `propName`; `null` stands for its default. */
    method UpdateComponentProp(propName: string, newValue: Value, isRendering: bool)
      requires Valid()
      requires !isRendering
      requires propName in def.props
      modifies this`state, this`log, this`isDirty
      ensures Valid()
      ensures Snapshot() == Update(def, old(Snapshot()), propName, newValue)
    {
      var v := newValue;
      if v == Null {
        v := Resolve(def.props[propName].initializer);
      }
      var oldValue := state[propName];
      if oldValue != v {
        state := state[propName := v];
        var attrName := def.props[propName].attrName;
        if attrName in def.observedAttrs {
          InvokeAttributeChangedCallback(attrName, oldValue, v);
        }
        if !isDirty {
          MarkComponentAsDirty(isRendering);
        }
      }
    }

    /** Resets property `propName` to its default. */
    method ResetComponentProp(propName: string, isRendering: bool)
      requires Valid()
      requires !isRendering
      requires propName in def.props
      modifies this`state, this`log, this`isDirty
      ensures Valid()
      ensures Snapshot() == Reset(def, old(Snapshot()), propName)
    {
      var v := Resolve(def.props[propName].initializer);
      var oldValue := state[propName];
      if oldValue != v {
        state := state[propName := v];
        var attrName := def.props[propName].attrName;
        if attrName in def.observedAttrs {
          InvokeAttributeChangedCallback(attrName, oldValue, v);
        }
        if !isDirty {
          MarkComponentAsDirty(isRendering);
        }
      }
    }

    /** A new slot set always dirties the record. */
    method UpdateComponentSlots(newSlots: seq<VNode>, isRendering: bool)
      requires !isDirty ==> !isRendering
      modifies this`isDirty
      ensures isDirty
    {
      if !isDirty {
        MarkComponentAsDirty(isRendering);
      }
    }

    /** The clean-to-dirty transition; dirtying a dirty record, or any record
        while a render is in progress, is a fatal error. */
    method MarkComponentAsDirty(isRendering: bool)
      requires !isDirty
      requires !isRendering
      modifies this`isDirty
      ensures isDirty
    {
      isDirty := true;
    }

    /** Renders a dirty record with the render method `render`, which computes
        the output from the property state. */
    method RenderComponent(render: map<string, Value> -> VNode) returns (vnode: VNode)
      requires isDirty
      modifies this`isDirty, this`listeners, listeners
      ensures !isDirty && listeners == {}
      ensures vnode == render(state)
      ensures forall d :: d in old(listeners) ==> d.members == old(d.members) - {this}
    {
      ClearListeners();
      vnode := render(state);
      isDirty := false;
    }

    /** Releases the record's dependency registrations. */
    method DestroyComponent()
      modifies this`listeners, listeners
      ensures listeners == {}
      ensures forall d :: d in old(listeners) ==> d.members == old(d.members) - {this}
    {
      ClearListeners();
    }

    /** Destroying a record twice has the effect of destroying it once. */
    method DestroyIsIdempotent()
      modifies this`listeners, listeners
      ensures listeners == {}
      ensures forall d :: d in old(listeners) ==> d.members == old(d.members) - {this}
    {
      DestroyComponent();
      DestroyComponent();
    }
  }

  /** A counter component with property `count` (default 0) reflected to the
      observed attribute `data-count`, taken through create, update, render and
      a repeated update. */
  method CounterScenario()
  {
    var config := PropConfig(Literal(Num(0)), "data-count");
    var def := ComponentDef(["count"], map["count" := config], {"data-count"});
    var vm := new VM(def, HTMLElement("x-counter"), Obj(0), []);
    assert def.order[..0] == [];
    assert Announced(def, "count");
    assert DefaultNotifications(def) == NotificationsOf(def, []) + [DefaultNotification(def, "count")];
    assert vm.state["count"] == Num(0);
    assert vm.log == [AttributeChanged("data-count", Undefined, Num(0))];
    vm.UpdateComponentProp("count", Num(5), false);
    assert vm.log == [AttributeChanged("data-count", Undefined, Num(0)), AttributeChanged("data-count", Num(0), Num(5))];
    assert vm.isDirty && vm.state["count"] == Num(5);
    var out := vm.RenderComponent(s => VNode(0));
    assert !vm.isDirty;
    vm.UpdateComponentProp("count", Num(5), false);
    assert !vm.isDirty && |vm.log| == 2;
    vm.UpdateComponentProp("count", Null, false);
    assert vm.isDirty && vm.state["count"] == Num(0);
    var d := new DepSet();
    vm.Track(d);
    assert vm in d.members && d in vm.listeners;
    vm.DestroyComponent();
    assert vm !in d.members && vm.listeners == {};
  }
}
