/**
 * `ContactAdmin` of clinic/admin.py: the shortened working hours shown in the
 * list, and the two permission hooks. `Contact.objects.exists()` is the
 * parameter `contactExists`.
 */
module Admin {

  const SHORT_LENGTH := 30
  const ELLIPSIS := "..."

  /** `working_hours_short`: at most 30 characters of the text, with `...` when it was cut. */
  function WorkingHoursShort(hours: string): (r: string)
    ensures |r| <= SHORT_LENGTH + |ELLIPSIS|
    ensures |hours| <= SHORT_LENGTH ==> r == hours
    ensures |hours| > SHORT_LENGTH ==> |r| == SHORT_LENGTH + |ELLIPSIS| && r[SHORT_LENGTH..] == ELLIPSIS
    ensures var n := if |hours| < SHORT_LENGTH then |hours| else SHORT_LENGTH;
      n <= |r| && r[..n] == hours[..n]
  {
    if |hours| > SHORT_LENGTH then hours[..SHORT_LENGTH] + ELLIPSIS else hours
  }

  /** Shortening what is already shortened changes nothing. */
  lemma ShortIdempotent(hours: string)
    ensures WorkingHoursShort(WorkingHoursShort(hours)) == WorkingHoursShort(hours)
  {
    var r := WorkingHoursShort(hours);
    if |hours| > SHORT_LENGTH {
      assert r[..SHORT_LENGTH] == hours[..SHORT_LENGTH];
    }
  }

  /** Texts that agree on their first 30 characters and are both longer look the same in the list. */
  lemma ShortHidesTail(a: string, b: string)
    requires |a| > SHORT_LENGTH && |b| > SHORT_LENGTH && a[..SHORT_LENGTH] == b[..SHORT_LENGTH]
    ensures WorkingHoursShort(a) == WorkingHoursShort(b)
  {
  }

  /** `has_add_permission`: a contact may be added only while there is none. */
  function HasAddPermission(contactExists: bool): (allowed: bool)
    ensures allowed <==> !contactExists
  {
    !contactExists
  }

  /** `has_delete_permission`: contacts are never deleted. */
  function HasDeletePermission(): (allowed: bool)
    ensures !allowed
  {
    false
  }

  /** What the admin site is asked to do with the contact records. */
  datatype AdminAction = AddContact | DeleteContact

  /** The number of contacts after one action, which the admin carries out only when its hook allows it. */
  function Apply(count: nat, action: AdminAction): nat {
    match action
    case AddContact => if HasAddPermission(count > 0) then count + 1 else count
    case DeleteContact => if HasDeletePermission() then OneFewer(count) else count
  }

  function OneFewer(count: nat): nat {
    if count == 0 then 0 else count - 1
  }

  /** The number of contacts after a series of actions. */
  function Run(count: nat, actions: seq<AdminAction>): nat
    decreases |actions|
  {
    if |actions| == 0 then count else Run(Apply(count, actions[0]), actions[1..])
  }

  /**
   * "Allow adding only one record": from no record or one, no series of add
   * and delete requests gets past one record, and none removes a record.
   */
  lemma {:induction false} AtMostOneContact(count: nat, actions: seq<AdminAction>)
    requires count <= 1
    ensures count <= Run(count, actions) <= 1
    decreases |actions|
  {
    if |actions| > 0 {
      AtMostOneContact(Apply(count, actions[0]), actions[1..]);
    }
  }

  /** Starting with no contact, the record exists afterwards exactly when an add was requested. */
  lemma {:induction false} FirstAddCreates(actions: seq<AdminAction>)
    ensures Run(0, actions) == 1 <==> AddContact in actions
    decreases |actions|
  {
    if |actions| > 0 {
      if actions[0] == AddContact {
        AtMostOneContact(1, actions[1..]);
      } else {
        FirstAddCreates(actions[1..]);
        assert actions == [actions[0]] + actions[1..];
      }
    }
  }
}
