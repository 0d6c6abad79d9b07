/**
 Types shared by every component of the monitor model.
 */
module Base {

  datatype Option<+T> = None | Some(value: T)

  /** A point on the injected clock, in nanoseconds. Durations are differences of times. */
  type Time = int

  const SECOND: int := 1_000_000_000
  const MINUTE: int := 60 * SECOND

  /** The value of an unset timestamp. */
  const ZERO: Time := 0

  /** An unset timestamp is stored as an absent value. */
  function TimePtr(t: Time): Option<Time> {
    if t == ZERO then None else Some(t)
  }

  function DerefTime(t: Option<Time>): Time {
    if t.None? then ZERO else t.value
  }

  /** No element occurs twice. */
  predicate Distinct<T(==)>(s: seq<T>) {
    forall i, j :: 0 <= i < j < |s| ==> s[i] != s[j]
  }

  /** The slug's stamp is younger than the window. */
  predicate Young(stamps: map<string, Time>, slug: string, now: Time, window: int) {
    slug in stamps && now - stamps[slug] < window
  }

  /** The stamps younger than the window. */
  function Fresh(stamps: map<string, Time>, now: Time, window: int): map<string, Time> {
    map s | s in stamps && now - stamps[s] < window :: stamps[s]
  }

  lemma Regroup<T>(a: seq<T>, b: seq<T>, c: seq<T>)
    ensures a + (b + c) == a + b + c
  {
  }

  lemma SubsetSize<T>(a: set<T>, b: set<T>)
    requires a <= b
    ensures |a| <= |b|
  {
    assert b == a + (b - a);
  }
}
