/**
 * Sending one callback to every member of a registry: the `for (x :
 * map.keySet())` loops that deliver connection events and ticks.
 */
module Fanout {

  /** No target is called twice. */
  predicate Distinct<T(==), E>(sent: seq<(T, E)>) {
    forall i, j :: 0 <= i < j < |sent| ==> sent[i].0 != sent[j].0
  }

  /** `sent` calls every target, and nothing else, exactly once, each time with `event`. */
  ghost predicate Delivers<T(!new), E>(sent: seq<(T, E)>, targets: set<T>, event: E) {
    && (forall t :: t in targets <==> exists i :: 0 <= i < |sent| && sent[i].0 == t)
    && (forall i :: 0 <= i < |sent| ==> sent[i].1 == event)
    && Distinct(sent)
  }

  /**
   * Visits the registered targets one at a time, in no particular order, and
   * records the call `(target, event)` made to each.
   */
  method Broadcast<T(==,!new), E>(targets: set<T>, event: E) returns (sent: seq<(T, E)>)
    ensures Delivers(sent, targets, event)
  {
    sent := [];
    var todo := targets;
    while todo != {}
      invariant todo <= targets
      invariant forall t :: t in targets - todo <==> exists i :: 0 <= i < |sent| && sent[i].0 == t
      invariant forall i :: 0 <= i < |sent| ==> sent[i].1 == event
      invariant forall i :: 0 <= i < |sent| ==> sent[i].0 !in todo
      invariant Distinct(sent)
      decreases todo
    {
      var t :| t in todo;
      ghost var before, done := sent, targets - todo;
      sent := sent + [(t, event)];
      todo := todo - {t};
      forall u | u in targets - todo
        ensures exists i :: 0 <= i < |sent| && sent[i].0 == u
      {
        if u == t {
          assert sent[|sent| - 1].0 == u;
        } else {
          assert u in done;
          var i :| 0 <= i < |before| && before[i].0 == u;
          assert sent[i].0 == u;
        }
      }
      forall i | 0 <= i < |sent|
        ensures sent[i].0 in targets - todo
      {
        if i < |before| {
          assert before[i].0 in done;
        }
      }
    }
    assert targets - todo == targets;
  }
}
