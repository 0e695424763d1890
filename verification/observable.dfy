/** The change-notification primitive every observable object of the
    client builds on: assign a property only when the new value differs,
    and raise a property-changed notification exactly when it did. */
module Observable {

  /** What an assignment through the primitive leaves behind: the
      property's new value and whether it changed (which is also whether a
      notification fired). */
  datatype Assignment<T> = Assignment(value: T, changed: bool)

  /** Specification of one assignment: after it the property holds the new
      value, and it changed iff the old value was not equal to it. */
  function Assign<T(==)>(current: T, newValue: T): (a: Assignment<T>)
    ensures a.value == newValue
    ensures a.changed <==> current != newValue
    ensures !a.changed ==> a.value == current
  {
    if current != newValue then Assignment(newValue, true) else Assignment(current, false)
  }

  /** Assigning the value a property already holds reports no change. */
  lemma AssignIdempotent<T>(current: T, newValue: T)
    ensures !Assign(Assign(current, newValue).value, newValue).changed
  {
  }

  /** An object that raises property-changed notifications; `notified` is
      the sequence of property names it has announced, oldest first. */
  class ObservableObject {
    var notified: seq<string>

    constructor ()
      ensures notified == []
    {
      notified := [];
    }

    /** Assign through a reference to the backing field: `field` is the
        field's value on entry, `newField` its value on return. */
    method UpdateProperty<T(==)>(name: string, field: T, newValue: T) returns (newField: T, changed: bool)
      modifies this
      ensures Assignment(newField, changed) == Assign(field, newValue)
      ensures changed <==> field != newValue
      ensures notified == old(notified) + (if changed then [name] else [])
    {
      newField, changed := field, false;
      if field != newValue {
        newField := newValue;
        notified := notified + [name];
        changed := true;
      }
    }

    /** The same through a getter and a setter over the object's state
        `s`, for properties without a field of their own. */
    method UpdateAutomaticProperty<S, T(==)>(name: string, s: S, getter: S -> T, setter: (S, T) -> S, newValue: T)
      returns (s': S, changed: bool)
      modifies this
      ensures changed <==> getter(s) != newValue
      ensures s' == if changed then setter(s, newValue) else s
      ensures notified == old(notified) + (if changed then [name] else [])
    {
      s', changed := s, false;
      if getter(s) != newValue {
        s' := setter(s, newValue);
        notified := notified + [name];
        changed := true;
      }
    }
  }

  /** A second automatic-property update with the same value reports no
      change, provided the setter stores what the getter reads back. */
  lemma AutomaticPropertyIdempotent<S, T>(s: S, getter: S -> T, setter: (S, T) -> S, newValue: T)
    requires getter(setter(s, newValue)) == newValue
    ensures var s' := if getter(s) != newValue then setter(s, newValue) else s;
            getter(s') == newValue
  {
  }
}
