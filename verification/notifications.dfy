/** The notification views over the subscription list: the records expiring
    soon, the expired ones, and the badge count. `days(u)` is the number of
    whole days left until `u`'s end date (negative once it has passed); every
    view here reads the same `days`, so all of them see one clock reading. */
module Notifications {
  import opened Seqs
  import opened Status
  import opened Store

  /** Records whose days left lie in 0..3, in list order. */
  function ExpiringUsers(users: seq<Record>, days: Record -> int): (r: seq<Record>)
    ensures forall u: Record {:trigger u in r} :: u in r <==> u in users && Classify(days(u)) == ExpiringSoon
    ensures forall u: Record {:trigger multiset(r)[u]} :: Classify(days(u)) == ExpiringSoon ==> multiset(r)[u] == multiset(users)[u]
    ensures IsSubsequence(r, users)
    ensures |r| == Count(users, (u: Record) => Classify(days(u)) == ExpiringSoon)
  {
    var keep := (u: Record) => days(u) <= 3 && days(u) >= 0;
    FilterCongruence(users, keep, (u: Record) => Classify(days(u)) == ExpiringSoon);
    Filter(users, keep)
  }

  /** Records whose days left are negative, in list order. */
  function ExpiredUsers(users: seq<Record>, days: Record -> int): (r: seq<Record>)
    ensures forall u: Record {:trigger u in r} :: u in r <==> u in users && Classify(days(u)) == Expired
    ensures forall u: Record {:trigger multiset(r)[u]} :: Classify(days(u)) == Expired ==> multiset(r)[u] == multiset(users)[u]
    ensures IsSubsequence(r, users)
    ensures |r| == Count(users, (u: Record) => Classify(days(u)) == Expired)
  {
    var keep := (u: Record) => days(u) < 0;
    FilterCongruence(users, keep, (u: Record) => Classify(days(u)) == Expired);
    Filter(users, keep)
  }

  /** The badge count: expiring plus expired, which is every record that is
      not active, and so never more than the whole list. */
  function TotalNotifications(users: seq<Record>, days: Record -> int): (n: nat)
    ensures n <= |users|
    ensures n == |users| - Count(users, (u: Record) => Classify(days(u)) == Active)
    ensures n == 0 <==> forall i :: 0 <= i < |users| ==> Classify(days(users[i])) == Active
  {
    var soon := (u: Record) => Classify(days(u)) == ExpiringSoon;
    var gone := (u: Record) => Classify(days(u)) == Expired;
    var active := (u: Record) => Classify(days(u)) == Active;
    var notActive := (u: Record) => Classify(days(u)) != Active;
    CountDisjoint(users, soon, gone, notActive);
    CountComplement(users, active, notActive);
    CountAll(users, active);
    |ExpiringUsers(users, days)| + |ExpiredUsers(users, days)|
  }

  /** No record is both expiring soon and expired, and together the two
      views hold exactly the records that are not active, with their
      multiplicities. */
  lemma NotificationsPartition(users: seq<Record>, days: Record -> int)
    ensures forall u: Record :: !(u in ExpiringUsers(users, days) && u in ExpiredUsers(users, days))
    ensures multiset(ExpiringUsers(users, days)) + multiset(ExpiredUsers(users, days))
         == multiset(Filter(users, (u: Record) => Classify(days(u)) != Active))
  {
  }

  /** Adding a record raises the badge count by one exactly when the new
      record is not active; a rejected form leaves it alone. */
  lemma NotificationsAfterSubmit(users: seq<Record>, form: Form, now: int, timestamp: string, days: Record -> int)
    ensures var r := Submit(users, form, now, timestamp);
      TotalNotifications(r.users, days)
        == TotalNotifications(users, days)
           + (if r.outcome.Accepted? && Classify(days(r.outcome.record)) != Active then 1 else 0)
  {
    var r := Submit(users, form, now, timestamp);
    if r.outcome.Accepted? {
      var rec := r.outcome.record;
      FilterConcat(users, [rec], (u: Record) => days(u) <= 3 && days(u) >= 0);
      FilterConcat(users, [rec], (u: Record) => days(u) < 0);
    }
  }

  /** Deleting never raises the badge count. */
  lemma NotificationsAfterDelete(users: seq<Record>, id: int, days: Record -> int)
    ensures TotalNotifications(Delete(users, id), days) <= TotalNotifications(users, days)
  {
    var keep := (u: Record) => u.id != id;
    var soon := (u: Record) => days(u) <= 3 && days(u) >= 0;
    var gone := (u: Record) => days(u) < 0;
    FilterFilter(users, keep, soon, (u: Record) => keep(u) && soon(u));
    FilterFilter(users, soon, keep, (u: Record) => keep(u) && soon(u));
    FilterFilter(users, keep, gone, (u: Record) => keep(u) && gone(u));
    FilterFilter(users, gone, keep, (u: Record) => keep(u) && gone(u));
  }

  /** Three records ending yesterday, today and in ten days: the first is
      expired, the second expiring soon, and the badge shows two. */
  lemma ThreeRecordScenario(a: Record, b: Record, c: Record, days: Record -> int)
    requires days(a) == -1 && days(b) == 0 && days(c) == 10
    ensures ExpiredUsers([a, b, c], days) == [a]
    ensures ExpiringUsers([a, b, c], days) == [b]
    ensures TotalNotifications([a, b, c], days) == 2
  {
    var users := [a, b, c];
    assert users[1..] == [b, c] && users[1..][1..] == [c] && users[1..][1..][1..] == [];
    var gone := (u: Record) => days(u) < 0;
    assert Filter([c], gone) == [] && Filter([b, c], gone) == [];
    var soon := (u: Record) => days(u) <= 3 && days(u) >= 0;
    assert Filter([c], soon) == [] && Filter([b, c], soon) == [b];
  }

  /** The source reads the clock afresh in each view. With a record on the
      boundary between day 0 and day -1, the expiring view's reading and the
      expired view's reading can disagree, and the record then appears in
      both lists and is counted twice. */
  lemma SeparateReadingsOverlap(u: Record, before: Record -> int, after: Record -> int)
    requires before(u) == 0 && after(u) == -1
    ensures ExpiringUsers([u], before) == [u] && ExpiredUsers([u], after) == [u]
    ensures |ExpiringUsers([u], before)| + |ExpiredUsers([u], after)| == 2
  {
  }
}
