/** The dashboard's search box: a case-insensitive substring match of the
    search term against a record's name or service. */
module Search {
  import opened Seqs
  import opened Text
  import opened Store

  /** The lower-cased term occurs in the lower-cased name or service. */
  predicate Matches(u: Record, term: string) {
    Contains(Lower(u.name), Lower(term)) || Contains(Lower(u.service), Lower(term))
  }

  /** The records shown for `term`, in list order. */
  function Filtered(users: seq<Record>, term: string): (r: seq<Record>)
    ensures forall u: Record {:trigger u in r} :: u in r <==> u in users && Matches(u, term)
    ensures forall u: Record {:trigger multiset(r)[u]} :: Matches(u, term) ==> multiset(r)[u] == multiset(users)[u]
    ensures IsSubsequence(r, users)
    ensures |r| <= |users|
  {
    Filter(users, (u: Record) => Matches(u, term))
  }

  /** An empty search box shows the whole list. */
  lemma SearchEmptyTerm(users: seq<Record>)
    ensures Filtered(users, []) == users
  {
    forall i | 0 <= i < |users|
      ensures Matches(users[i], [])
    {
      ContainsTrivial(Lower(users[i].name));
    }
  }

  /** Terms that lower-case alike show the same records. */
  lemma SearchCaseInsensitive(users: seq<Record>, t1: string, t2: string)
    requires Lower(t1) == Lower(t2)
    ensures Filtered(users, t1) == Filtered(users, t2)
  {
    FilterCongruence(users, (u: Record) => Matches(u, t1), (u: Record) => Matches(u, t2));
  }

  /** Refining the term (the old lower-cased term occurs in the new one)
      only removes records: the new result is the old result searched again. */
  lemma SearchRefines(users: seq<Record>, t1: string, t2: string)
    requires Contains(Lower(t2), Lower(t1))
    ensures Filtered(Filtered(users, t1), t2) == Filtered(users, t2)
  {
    var m1 := (u: Record) => Matches(u, t1);
    var m2 := (u: Record) => Matches(u, t2);
    var both := (u: Record) => Matches(u, t1) && Matches(u, t2);
    FilterFilter(users, m1, m2, both);
    forall i | 0 <= i < |users|
      ensures both(users[i]) == m2(users[i])
    {
      var u := users[i];
      if Contains(Lower(u.name), Lower(t2)) {
        ContainsTransitive(Lower(u.name), Lower(t2), Lower(t1));
      }
      if Contains(Lower(u.service), Lower(t2)) {
        ContainsTransitive(Lower(u.service), Lower(t2), Lower(t1));
      }
    }
    FilterCongruence(users, both, m2);
  }
}
