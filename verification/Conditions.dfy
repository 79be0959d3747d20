/**
 * Status conditions. SetStatusCondition keeps one entry per type, so a condition list is a map from the type to its
 * entry. Messages, generations and transition times are not modelled.
 */
module Conditions {

  datatype Status = True | False | Unknown

  datatype Condition<R> = Condition(status: Status, reason: R)

  /** meta.IsStatusConditionTrue */
  predicate IsTrue<T, R>(conditions: map<T, Condition<R>>, typ: T) {
    typ in conditions && conditions[typ].status == True
  }
}
