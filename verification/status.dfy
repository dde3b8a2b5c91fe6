/** Lifecycle status of a subscription, derived from the signed number of
    days left until its end date (negative once the end date has passed). */
module Status {

  datatype Status = Expired | ExpiringSoon | Active

  /** The status badge: expired before day 0, expiring soon from day 0 up to
      and including day 3, active afterwards. */
  function Classify(days: int): (s: Status)
    ensures s == Expired <==> days < 0
    ensures s == ExpiringSoon <==> 0 <= days <= 3
    ensures s == Active <==> 3 < days
  {
    if days < 0 then Expired
    else if days <= 3 then ExpiringSoon
    else Active
  }

  /** The text shown on the badge. */
  function Label(s: Status): (l: string)
    ensures l == "Expired" <==> s == Expired
    ensures l == "Expiring Soon" <==> s == ExpiringSoon
    ensures l == "Active" <==> s == Active
  {
    match s
    case Expired => "Expired"
    case ExpiringSoon => "Expiring Soon"
    case Active => "Active"
  }

  /** Distinct statuses show distinct labels, so the label identifies the status. */
  lemma LabelInjective(s: Status, t: Status)
    requires Label(s) == Label(t)
    ensures s == t
  {
  }

  /** How close a status is to expiry; more days left never means more urgent. */
  function Urgency(s: Status): (u: nat)
    ensures u <= 2
  {
    match s
    case Active => 0
    case ExpiringSoon => 1
    case Expired => 2
  }

  /** The boundary days -1, 0, 3 and 4. */
  lemma ClassifyBoundaries()
    ensures Classify(-1) == Expired
    ensures Classify(0) == ExpiringSoon
    ensures Classify(3) == ExpiringSoon
    ensures Classify(4) == Active
  {
  }

  /** Status only moves towards expiry as the days left decrease. */
  lemma ClassifyMonotone(d1: int, d2: int)
    requires d1 <= d2
    ensures Urgency(Classify(d1)) >= Urgency(Classify(d2))
  {
  }
}
