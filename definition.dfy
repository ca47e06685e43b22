/** The component definition a component type resolves to, and what default
    application derives from it: the default state and the default
    attribute-change announcements. */
module Definition {
  import opened Values

  /** The configuration of one public property. */
  datatype PropConfig = PropConfig(initializer: Initializer, attrName: string)

  /** `order` is the enumeration order of the `props` configuration object;
      `observedAttrs` the attribute names the type observes. */
  datatype ComponentDef = ComponentDef(
    order: seq<string>,
    props: map<string, PropConfig>,
    observedAttrs: set<string>)

  /** One call of the attribute-changed callback. */
  datatype Notification = AttributeChanged(attrName: string, oldValue: Value, newValue: Value)

  predicate Distinct(names: seq<string>)
  {
    forall i, j :: 0 <= i < j < |names| ==> names[i] != names[j]
  }

  lemma DistinctSnoc(s: seq<string>, x: string)
    ensures Distinct(s) && x !in s ==> Distinct(s + [x])
  {
  }

  /** A configuration object enumerates each of its own keys exactly once. */
  predicate WellFormed(def: ComponentDef)
  {
    && Distinct(def.order)
    && (forall p :: p in def.order ==> p in def.props)
    && (forall p :: p in def.props ==> p in def.order)
  }

  function DefaultOf(def: ComponentDef, p: string): Value
    requires p in def.props
  {
    Resolve(def.props[p].initializer)
  }

  /** Every configured property holding its resolved default. */
  function Defaults(def: ComponentDef): map<string, Value>
  {
    map p | p in def.props :: DefaultOf(def, p)
  }

  /** The defaults of the properties named in `names`. */
  function DefaultsOf(def: ComponentDef, names: seq<string>): map<string, Value>
    requires forall p :: p in names ==> p in def.props
  {
    map p | p in names :: DefaultOf(def, p)
  }

  predicate Observed(def: ComponentDef, p: string)
    requires p in def.props
  {
    def.props[p].attrName in def.observedAttrs
  }

  /** Whether default application announces property `p`: its default is not
      `undefined` and its attribute is observed. A `null` or `0` default is announced. */
  predicate Announced(def: ComponentDef, p: string)
    requires p in def.props
  {
    DefaultOf(def, p) != Undefined && Observed(def, p)
  }

  function DefaultNotification(def: ComponentDef, p: string): Notification
    requires p in def.props
  {
    AttributeChanged(def.props[p].attrName, Undefined, DefaultOf(def, p))
  }

  /** The properties among `names` that default application announces, in order. */
  function AnnouncedProps(def: ComponentDef, names: seq<string>): (q: seq<string>)
    requires forall p :: p in names ==> p in def.props
    ensures forall p :: p in q <==> p in names && Announced(def, p)
    ensures Distinct(names) ==> Distinct(q)
  {
    if names == [] then []
    else
      var init, p := names[..|names| - 1], names[|names| - 1];
      assert names == init + [p];
      var q0 := AnnouncedProps(def, init);
      assert Distinct(names) ==> Distinct(init) && p !in q0;
      DistinctSnoc(q0, p);
      q0 + (if Announced(def, p) then [p] else [])
  }

  /** The notifications the second pass of default application issues for the
      properties in `names`: the i-th one announces the i-th announced property. */
  function NotificationsOf(def: ComponentDef, names: seq<string>): seq<Notification>
    requires forall p :: p in names ==> p in def.props
  {
    if names == [] then []
    else
      var init, p := names[..|names| - 1], names[|names| - 1];
      assert names == init + [p];
      NotificationsOf(def, init) + (if Announced(def, p) then [DefaultNotification(def, p)] else [])
  }

  /** The i-th notification issued for `names` announces the i-th announced property. */
  lemma {:induction false} NotificationsOfAnnounced(def: ComponentDef, names: seq<string>)
    requires forall p :: p in names ==> p in def.props
    ensures |NotificationsOf(def, names)| == |AnnouncedProps(def, names)|
    ensures forall i :: 0 <= i < |NotificationsOf(def, names)| ==>
      NotificationsOf(def, names)[i] == DefaultNotification(def, AnnouncedProps(def, names)[i])
  {
    if names != [] {
      var init, p := names[..|names| - 1], names[|names| - 1];
      assert names == init + [p];
      NotificationsOfAnnounced(def, init);
    }
  }

  /** All the notifications of default application, in configuration order. */
  function DefaultNotifications(def: ComponentDef): seq<Notification>
    requires WellFormed(def)
  {
    NotificationsOf(def, def.order)
  }

  /** Default application announces exactly the properties whose default is
      defined and whose attribute is observed, each of them exactly once, each
      with `(attrName, undefined, default)`. */
  lemma DefaultNotificationsExact(def: ComponentDef)
    requires WellFormed(def)
    ensures var q := AnnouncedProps(def, def.order);
      && Distinct(q)
      && (forall p :: p in q <==> p in def.props && Announced(def, p))
      && |DefaultNotifications(def)| == |q|
      && forall i :: 0 <= i < |q| ==>
           DefaultNotifications(def)[i] == AttributeChanged(def.props[q[i]].attrName, Undefined, DefaultOf(def, q[i]))
  {
    NotificationsOfAnnounced(def, def.order);
  }

  /** Every default notification reports an observed attribute going from
      `undefined` to a defined value. */
  lemma DefaultNotificationShape(def: ComponentDef, i: nat)
    requires WellFormed(def) && i < |DefaultNotifications(def)|
    ensures DefaultNotifications(def)[i].oldValue == Undefined
    ensures DefaultNotifications(def)[i].newValue != Undefined
    ensures DefaultNotifications(def)[i].attrName in def.observedAttrs
  {
    NotificationsOfAnnounced(def, def.order);
    var q := AnnouncedProps(def, def.order);
    assert q[i] in q;
  }

  /** Writing the default of `p` after those of `names`. */
  lemma DefaultsOfSnoc(def: ComponentDef, base: map<string, Value>, names: seq<string>, p: string)
    requires forall q :: q in names ==> q in def.props
    requires p in def.props
    ensures base + DefaultsOf(def, names + [p]) == (base + DefaultsOf(def, names))[p := DefaultOf(def, p)]
  {
    assert DefaultsOf(def, names + [p]) == DefaultsOf(def, names)[p := DefaultOf(def, p)];
  }

  lemma NotificationsOfSnoc(def: ComponentDef, names: seq<string>, p: string)
    requires forall q :: q in names ==> q in def.props
    requires p in def.props
    ensures NotificationsOf(def, names + [p])
         == NotificationsOf(def, names) + (if Announced(def, p) then [DefaultNotification(def, p)] else [])
  {
  }

  /** Writing the defaults of all enumerated properties yields `Defaults(def)`. */
  lemma DefaultsOfOrder(def: ComponentDef)
    requires WellFormed(def)
    ensures DefaultsOf(def, def.order) == Defaults(def)
  {
  }
}
