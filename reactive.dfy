/** The reactive part of an instance record as a value, and the single internal
    write path (update / reset of a configured property) as functions on it.
    The imperative record in module Component is proved against these. */
module Reactive {
  import opened Values
  import opened Definition

  /** Dirty flag, property state and the attribute-changed callbacks issued so far. */
  datatype Record = Record(isDirty: bool, state: map<string, Value>, log: seq<Notification>)

  /** The state holds exactly the configured properties. */
  predicate Conforms(def: ComponentDef, r: Record)
  {
    r.state.Keys == def.props.Keys
  }

  /** The value an update writes: `null` stands for the property's default. */
  function Effective(def: ComponentDef, p: string, newValue: Value): Value
    requires p in def.props
  {
    if newValue == Null then DefaultOf(def, p) else newValue
  }

  /** Compare with `!==`, write, notify an observed attribute, dirty the record. */
  function Assign(def: ComponentDef, r: Record, p: string, v: Value): Record
    requires Conforms(def, r) && p in def.props
  {
    var oldValue := r.state[p];
    if oldValue == v then r
    else
      var attrName := def.props[p].attrName;
      var log := if attrName in def.observedAttrs then r.log + [AttributeChanged(attrName, oldValue, v)] else r.log;
      Record(true, r.state[p := v], log)
  }

  /** Updating property `p`: a write of the value already held changes nothing;
      any other write stores the value, leaves every other property alone,
      notifies exactly when the attribute is observed and leaves the record dirty. */
  function Update(def: ComponentDef, r: Record, p: string, newValue: Value): (r': Record)
    requires Conforms(def, r) && p in def.props
    ensures Conforms(def, r')
    ensures Effective(def, p, newValue) == r.state[p] ==> r' == r
    ensures r'.state[p] == Effective(def, p, newValue)
    ensures forall q :: q in r.state && q != p ==> r'.state[q] == r.state[q]
    ensures r'.log == r.log + (
      if Effective(def, p, newValue) != r.state[p] && Observed(def, p)
      then [AttributeChanged(def.props[p].attrName, r.state[p], Effective(def, p, newValue))]
      else [])
    ensures r'.isDirty == (r.isDirty || Effective(def, p, newValue) != r.state[p])
  {
    Assign(def, r, p, Effective(def, p, newValue))
  }

  /** Resetting `p` is updating it with its default, or equally with `null`. */
  function Reset(def: ComponentDef, r: Record, p: string): (r': Record)
    requires Conforms(def, r) && p in def.props
    ensures r' == Update(def, r, p, DefaultOf(def, p))
    ensures r' == Update(def, r, p, Null)
  {
    Assign(def, r, p, DefaultOf(def, p))
  }

  /** A second update with the same value is a no-op. */
  lemma UpdateIdempotent(def: ComponentDef, r: Record, p: string, v: Value)
    requires Conforms(def, r) && p in def.props
    ensures Update(def, Update(def, r, p, v), p, v) == Update(def, r, p, v)
  {
  }
}
