// Validation as a list of conditions with their subjects: the complaints are the subjects of those that fail.

module Complaints {
  import opened Basics

  datatype Condition<T> = Condition(holds: bool, subject: T)

  /** The subjects of the conditions that fail, in order. */
  function Failing<T>(conditions: seq<Condition<T>>): seq<T> {
    if conditions == [] then []
    else
      var last := conditions[|conditions| - 1];
      Failing(conditions[..|conditions| - 1]) + if last.holds then [] else [last.subject]
  }

  predicate AllHold<T>(conditions: seq<Condition<T>>) {
    forall i :: 0 <= i < |conditions| ==> conditions[i].holds
  }

  lemma {:induction false} NoComplaints<T>(conditions: seq<Condition<T>>)
    ensures Failing(conditions) == [] <==> AllHold(conditions)
  {
    if conditions != [] {
      var front, last := conditions[..|conditions| - 1], conditions[|conditions| - 1];
      NoComplaints(front);
      assert conditions == front + [last];
      if AllHold(conditions) {
        forall i | 0 <= i < |front| ensures front[i].holds {
          assert conditions[i].holds;
        }
      }
    }
  }

  /** Some condition on the subject fails. */
  ghost predicate Fails<T>(conditions: seq<Condition<T>>, subject: T) {
    exists i :: 0 <= i < |conditions| && !conditions[i].holds && conditions[i].subject == subject
  }

  /** The complaints name the failing conditions and nothing else. */
  lemma {:induction false} ComplaintsExact<T>(conditions: seq<Condition<T>>, subject: T)
    ensures subject in Failing(conditions) <==> Fails(conditions, subject)
  {
    if conditions != [] {
      var front, last := conditions[..|conditions| - 1], conditions[|conditions| - 1];
      ComplaintsExact(front, subject);
      assert conditions == front + [last];
      if subject in Failing(front) {
        var i :| 0 <= i < |front| && !front[i].holds && front[i].subject == subject;
        assert conditions[i] == front[i];
      }
      if !last.holds && last.subject == subject {
        assert !conditions[|front|].holds;
      }
    }
  }

  ghost predicate NamesFailing<T(!new)>(subjects: seq<T>, conditions: seq<Condition<T>>) {
    forall subject :: subject in subjects <==> Fails(conditions, subject)
  }

  function Complain<T(!new)>(conditions: seq<Condition<T>>): (subjects: seq<T>)
    ensures NamesFailing(subjects, conditions)
    ensures subjects == [] <==> AllHold(conditions)
  {
    NoComplaints(conditions);
    assert forall subject :: subject in Failing(conditions) <==> Fails(conditions, subject) by {
      forall subject: T {
        ComplaintsExact(conditions, subject);
      }
    }
    Failing(conditions)
  }

  lemma AllHoldConcat<T>(a: seq<Condition<T>>, b: seq<Condition<T>>)
    ensures AllHold(a + b) <==> AllHold(a) && AllHold(b)
  {
    if AllHold(a + b) {
      forall i | 0 <= i < |a| ensures a[i].holds {
        assert (a + b)[i].holds;
      }
      forall i | 0 <= i < |b| ensures b[i].holds {
        assert (a + b)[|a| + i].holds;
      }
    }
  }

  /** Groups of conditions hold together exactly when each of them holds. */
  lemma {:induction false} AllHoldFlatten<T>(groups: seq<seq<Condition<T>>>)
    ensures AllHold(Flatten(groups)) <==> forall i :: 0 <= i < |groups| ==> AllHold(groups[i])
  {
    if groups != [] {
      var front, last := groups[..|groups| - 1], groups[|groups| - 1];
      AllHoldFlatten(front);
      AllHoldConcat(Flatten(front), last);
      assert groups == front + [last];
      if forall i :: 0 <= i < |groups| ==> AllHold(groups[i]) {
        forall i | 0 <= i < |front| ensures AllHold(front[i]) {
          assert AllHold(groups[i]);
        }
      }
    }
  }

  /** Groups fail for a subject exactly when one of them does. */
  lemma {:induction false} FailsFlatten<T>(groups: seq<seq<Condition<T>>>, subject: T)
    ensures Fails(Flatten(groups), subject) <==> exists g :: 0 <= g < |groups| && Fails(groups[g], subject)
  {
    if groups != [] {
      var front, last := groups[..|groups| - 1], groups[|groups| - 1];
      FailsFlatten(front, subject);
      FailsConcat(Flatten(front), last, subject);
      assert groups == front + [last];
      if g :| 0 <= g < |groups| && Fails(groups[g], subject) {
        assert g < |front| ==> Fails(front[g], subject);
      }
      if g :| 0 <= g < |front| && Fails(front[g], subject) {
        assert Fails(groups[g], subject);
      }
    }
  }

  lemma FailsConcat<T>(a: seq<Condition<T>>, b: seq<Condition<T>>, subject: T)
    ensures Fails(a + b, subject) <==> Fails(a, subject) || Fails(b, subject)
  {
    if i :| 0 <= i < |a| && !a[i].holds && a[i].subject == subject {
      assert !(a + b)[i].holds;
    }
    if i :| 0 <= i < |b| && !b[i].holds && b[i].subject == subject {
      assert !(a + b)[|a| + i].holds;
    }
  }

  /** Short lists, condition by condition. */
  lemma AllHoldShort<T>(c: seq<Condition<T>>)
    requires |c| <= 8
    requires (0 < |c| ==> c[0].holds) && (1 < |c| ==> c[1].holds) && (2 < |c| ==> c[2].holds)
    requires (3 < |c| ==> c[3].holds)
    requires (4 < |c| ==> c[4].holds) && (5 < |c| ==> c[5].holds) && (6 < |c| ==> c[6].holds)
    requires (7 < |c| ==> c[7].holds)
    ensures AllHold(c)
  {
  }
}
