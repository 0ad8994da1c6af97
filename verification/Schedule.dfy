/** When a scheduled operation is due, and how its runs relate to the firing instants of its schedule. */
module Schedule {
  import opened Reconciling

  /** Instants count nanoseconds; what is stored of an instant is its second. */
  type Time = nat
  const SECOND: nat := 1_000_000_000

  function Stored(t: Time): (s: Time)
    ensures s <= t < s + SECOND && s % SECOND == 0
  {
    t - t % SECOND
  }

  /** A parsed schedule, by the instant of its next firing after a given one. */
  datatype Cron = Cron(next: Time -> Time)
  {
    predicate Fires(t: Time) {
      t > 0 && next(t - 1) == t
    }

    /** The next firing is the first after the instant, it exists, and it is on a full second. */
    ghost predicate Lawful() {
      && (forall t: Time :: next(t) > t && next(t) % SECOND == 0)
      && (forall t: Time, u: Time :: t <= u < next(t) ==> next(u) == next(t))
    }
  }

  /** A parser of schedules; a schedule it rejects has no firings. */
  type Parser = string -> Option<Cron>

  function ShouldPerformScheduledOperation(parse: Parser, schedule: string, lastRun: Option<Time>, initialized: bool,
                                           now: Time): bool {
    if !initialized then false
    else if schedule == "" then false
    else match parse(schedule)
      case None => false
      case Some(cron) =>
        match lastRun
        case None => true
        case Some(last) => now > cron.next(last)
  }

  ghost predicate FiresWithin(cron: Cron, after: Time, upTo: Time) {
    exists x :: after < x <= upTo && cron.Fires(x)
  }

  /** An operation that has run before is due exactly when its schedule has fired since, strictly before now. */
  lemma DueExactlyAfterAFiring(parse: Parser, schedule: string, last: Time, now: Time)
    requires schedule != "" && parse(schedule).Some? && parse(schedule).value.Lawful()
    ensures ShouldPerformScheduledOperation(parse, schedule, Some(last), true, now) <==>
      exists x :: last < x < now && parse(schedule).value.Fires(x)
  {
    var cron := parse(schedule).value;
    var n := cron.next(last);
    assert cron.Fires(n);
    forall x | last < x && cron.Fires(x)
      ensures n <= x
    {
      if x - 1 < n {
        assert cron.next(x - 1) == n;
      }
    }
  }

  /** Between a stored stamp and the stamp of the run it makes due lies a firing. */
  lemma RunsAreSeparated(parse: Parser, schedule: string, last: Time, now: Time)
    requires parse(schedule).Some? ==> parse(schedule).value.Lawful()
    requires ShouldPerformScheduledOperation(parse, schedule, Some(last), true, now)
    ensures FiresWithin(parse(schedule).value, last, Stored(now))
  {
    var cron := parse(schedule).value;
    var n := cron.next(last);
    assert cron.Fires(n);
    SecondsFit(n, now);
  }

  lemma SecondsFit(n: Time, now: Time)
    requires n % SECOND == 0 && n < now
    ensures n <= Stored(now)
  {
    var q, r := n / SECOND, now / SECOND;
    assert n == q * SECOND && Stored(now) == r * SECOND;
    assert q <= r;
  }

  /** A run at an instant is not due again at that instant. */
  lemma NotDueTwice(parse: Parser, schedule: string, now: Time, initialized: bool)
    requires parse(schedule).Some? ==> parse(schedule).value.Lawful()
    ensures !ShouldPerformScheduledOperation(parse, schedule, Some(Stored(now)), initialized, now)
  {
    if parse(schedule).Some? {
      var n := parse(schedule).value.next(Stored(now));
      if n < now {
        SecondsFit(n, now);
      }
    }
  }

  /* ---- counting ---- */

  ghost function Firings(cron: Cron, after: Time, upTo: Time): nat {
    |set x | after < x <= upTo && cron.Fires(x)|
  }

  ghost predicate Separated(cron: Cron, stamps: seq<Time>) {
    forall i :: 0 <= i < |stamps| - 1 ==> FiresWithin(cron, stamps[i], stamps[i + 1])
  }

  /** Stamps with a firing between each and the next are at most one more than the firings they span. */
  lemma {:induction false} SeparatedStampsAreFew(cron: Cron, stamps: seq<Time>, from: Time, upTo: Time)
    requires Separated(cron, stamps)
    requires stamps != [] ==> from <= stamps[0] && stamps[|stamps| - 1] <= upTo
    ensures |stamps| <= Firings(cron, from, upTo) + 1
    ensures stamps != [] ==> |stamps| <= Firings(cron, from, stamps[|stamps| - 1]) + 1
    ensures forall i :: 0 <= i < |stamps| ==> stamps[0] <= stamps[i] <= stamps[|stamps| - 1]
  {
    if |stamps| > 1 {
      var n := |stamps| - 1;
      var front := stamps[..n];
      assert forall i :: 0 <= i < n ==> front[i] == stamps[i];
      forall i | 0 <= i < |front| - 1
        ensures FiresWithin(cron, front[i], front[i + 1])
      {
        assert FiresWithin(cron, stamps[i], stamps[i + 1]);
      }
      SeparatedStampsAreFew(cron, front, from, front[n - 1]);
      assert FiresWithin(cron, stamps[n - 1], stamps[n]);
      var x :| stamps[n - 1] < x <= stamps[n] && cron.Fires(x);
      FiringsGrow(cron, from, stamps[n - 1], x, stamps[n]);
    }
    if |stamps| > 0 {
      FiringsGrow'(cron, from, stamps[|stamps| - 1], upTo);
    }
  }

  lemma FiringsGrow(cron: Cron, from: Time, a: Time, x: Time, b: Time)
    requires from <= a < x <= b && cron.Fires(x)
    ensures Firings(cron, from, b) >= Firings(cron, from, a) + 1
  {
    var small := set y | from < y <= a && cron.Fires(y);
    var big := set y | from < y <= b && cron.Fires(y);
    Subset(small + {x}, big);
  }

  lemma FiringsGrow'(cron: Cron, from: Time, a: Time, b: Time)
    requires a <= b
    ensures Firings(cron, from, b) >= Firings(cron, from, a)
  {
    Subset(set y | from < y <= a && cron.Fires(y), set y | from < y <= b && cron.Fires(y));
  }

  lemma Subset<T>(a: set<T>, b: set<T>)
    requires a <= b
    ensures |a| <= |b|
  {
    assert b == a + (b - a);
  }
}
