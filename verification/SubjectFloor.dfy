/** The distinct-subject count behind every k-anonymity floor, and what deletion and nulling do to it. */
module SubjectFloor {
  import opened Wrappers
  import opened TextOrder

  /** The identity columns of a ledger row. */
  datatype Person = Person(user: Option<string>, subject: Option<string>, session: Option<string>)

  function Accounts(ps: set<Person>): set<string> {
    set p | p in ps && p.user.Some? :: p.user.value
  }

  /** The anonymous identity of a row without an account. */
  function Fallback(p: Person): Option<string> {
    if p.subject.Some? then p.subject else p.session
  }

  function Anonymous(ps: set<Person>): set<string> {
    set p | p in ps && p.user.None? && Fallback(p).Some? :: Fallback(p).value
  }

  function Subjects(ps: set<Person>): nat {
    |Accounts(ps)| + |Anonymous(ps)|
  }

  lemma FewerPeople(ps: set<Person>, qs: set<Person>)
    requires ps <= qs
    ensures Subjects(ps) <= Subjects(qs)
  {
    SubsetCard(Accounts(ps), Accounts(qs));
    SubsetCard(Anonymous(ps), Anonymous(qs));
  }

  /** A row whose account's user_id was nulled instead of the row being deleted. */
  function Nulled(p: Person, u: string): Person {
    if p.user == Some(u) then p.(user := None) else p
  }

  function NulledAll(ps: set<Person>, u: string): set<Person> {
    set p | p in ps :: Nulled(p, u)
  }

  /** The anonymous identities an account's rows fall back to. */
  function Fallbacks(ps: set<Person>, u: string): set<string> {
    set p | p in ps && p.user == Some(u) && Fallback(p).Some? :: Fallback(p).value
  }

  /** Nulling one account trades its one subject for as many as its rows fall back to that were not
      counted already, so the count grows exactly when that is two or more. */
  lemma NullingShift(ps: set<Person>, u: string)
    ensures Subjects(NulledAll(ps, u))
         == Subjects(ps) - (if u in Accounts(ps) then 1 else 0) + |Fallbacks(ps, u) - Anonymous(ps)|
  {
    NulledAccounts(ps, u);
    NulledAnonymous(ps, u);
    assert Anonymous(NulledAll(ps, u)) == Anonymous(ps) + (Fallbacks(ps, u) - Anonymous(ps));
  }

  lemma NulledAccounts(ps: set<Person>, u: string)
    ensures Accounts(NulledAll(ps, u)) == Accounts(ps) - {u}
  {
    forall v | v in Accounts(ps) - {u} ensures v in Accounts(NulledAll(ps, u)) {
      var p :| p in ps && p.user == Some(v);
      assert Nulled(p, u) in NulledAll(ps, u);
    }
  }

  lemma NulledAnonymous(ps: set<Person>, u: string)
    ensures Anonymous(NulledAll(ps, u)) == Anonymous(ps) + Fallbacks(ps, u)
  {
    forall v | v in Anonymous(ps) ensures v in Anonymous(NulledAll(ps, u)) {
      var p :| p in ps && p.user.None? && Fallback(p) == Some(v);
      assert Nulled(p, u) in NulledAll(ps, u);
    }
    forall v | v in Fallbacks(ps, u) ensures v in Anonymous(NulledAll(ps, u)) {
      var p :| p in ps && p.user == Some(u) && Fallback(p) == Some(v);
      assert Nulled(p, u) in NulledAll(ps, u) && Fallback(Nulled(p, u)) == Some(v);
    }
    forall v | v in Anonymous(NulledAll(ps, u)) ensures v in Anonymous(ps) + Fallbacks(ps, u) {
      var q :| q in NulledAll(ps, u) && q.user.None? && Fallback(q) == Some(v);
      var p :| p in ps && q == Nulled(p, u);
      assert Fallback(p) == Some(v);
    }
  }
}
