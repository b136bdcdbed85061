/**
  Counting open seconds on an unbounded timeline. The timeline is any predicate on instants;
  a deadline is the first instant with a given number of open seconds behind it.
*/
module OpenTime {
  import opened Basics

  /** The number of open seconds in `[a, b)`. */
  ghost function OpenSeconds(open: int -> bool, a: int, b: int): (n: nat)
    ensures n <= Max(0, b - a)
    decreases b - a
  {
    if b <= a then 0 else OpenSeconds(open, a, b - 1) + if open(b - 1) then 1 else 0
  }

  lemma OpenSecondsSplit(open: int -> bool, a: int, b: int, c: int)
    requires a <= b <= c
    ensures OpenSeconds(open, a, c) == OpenSeconds(open, a, b) + OpenSeconds(open, b, c)
    decreases c - b
  {
    if b < c {
      OpenSecondsSplit(open, a, b, c - 1);
    }
  }

  ghost predicate ClosedThroughout(open: int -> bool, a: int, b: int) {
    forall t :: a <= t < b ==> !open(t)
  }

  lemma ClosedStretch(open: int -> bool, a: int, b: int)
    requires ClosedThroughout(open, a, b)
    ensures OpenSeconds(open, a, b) == 0
    decreases b - a
  {
    if a < b {
      ClosedStretch(open, a, b - 1);
    }
  }

  /** A stretch that is closed up to `start` and open from there on. */
  lemma OpensAt(open: int -> bool, a: int, start: int, b: int)
    requires forall t :: a <= t < b ==> (open(t) <==> start <= t)
    ensures OpenSeconds(open, a, b) == Max(0, b - Max(a, start))
    decreases b - a
  {
    if a < b {
      OpensAt(open, a, start, b - 1);
    }
  }

  /** `d` is the first instant by which `service` open seconds have passed since `at`. */
  ghost predicate IsDeadline(open: int -> bool, at: int, service: int, d: int) {
    && at <= d
    && OpenSeconds(open, at, d) == service
    && forall e :: at <= e < d ==> OpenSeconds(open, at, e) < service
  }

  lemma DeadlineInWindow(open: int -> bool, at: int, here: int, start: int, end: int, remaining: int)
    requires at <= here && 0 < remaining <= end - Max(here, start)
    requires forall t :: here <= t < end ==> (open(t) <==> start <= t)
    ensures IsDeadline(open, at, OpenSeconds(open, at, here) + remaining, Max(here, start) + remaining)
  {
    var d := Max(here, start) + remaining;
    OpensAt(open, here, start, d);
    OpenSecondsSplit(open, at, here, d);
    forall e | at <= e < d ensures OpenSeconds(open, at, e) < OpenSeconds(open, at, here) + remaining {
      if here <= e {
        OpensAt(open, here, start, e);
        OpenSecondsSplit(open, at, here, e);
      } else {
        OpenSecondsSplit(open, at, e, here);
      }
    }
  }

  /** The instant before a deadline is open. */
  lemma DeadlineFollowsOpen(open: int -> bool, at: int, service: int, d: int)
    requires 0 < service && IsDeadline(open, at, service, d)
    ensures at < d && open(d - 1)
  {
    assert OpenSeconds(open, at, d) > 0;
    assert OpenSeconds(open, at, d - 1) < service;
  }

  /** Waiting for `a + b` open seconds is waiting for `a` and then, from there, for `b`. */
  lemma DeadlinesAdd(open: int -> bool, at: int, a: int, b: int, middle: int, d: int)
    requires 0 < b && IsDeadline(open, at, a, middle)
    ensures IsDeadline(open, at, a + b, d) <==> IsDeadline(open, middle, b, d)
  {
    if at <= d {
      if d < middle {
        assert OpenSeconds(open, at, d) < a;
      } else {
        OpenSecondsSplit(open, at, middle, d);
        forall e | at <= e < d
          ensures OpenSeconds(open, at, e) ==
                  if e < middle then OpenSeconds(open, at, e) else a + OpenSeconds(open, middle, e)
        {
          if middle <= e {
            OpenSecondsSplit(open, at, middle, e);
          }
        }
      }
    }
  }

  /** A later start or a longer service time never brings the deadline forward. */
  lemma DeadlinesMonotone(open: int -> bool, at: int, service: int, d: int,
                          at': int, service': int, d': int)
    requires at <= at' && service <= service'
    requires IsDeadline(open, at, service, d) && IsDeadline(open, at', service', d')
    ensures d <= d'
  {
    if d' < d {
      OpenSecondsSplit(open, at, at', d');
    }
  }

  lemma DeadlineUnique(open: int -> bool, at: int, service: int, d: int, d': int)
    requires IsDeadline(open, at, service, d) && IsDeadline(open, at, service, d')
    ensures d == d'
  {
    DeadlinesMonotone(open, at, service, d, at, service, d');
    DeadlinesMonotone(open, at, service, d', at, service, d);
  }
}
