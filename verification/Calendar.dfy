/** Rate-limit windows. Instants and durations are integer nanoseconds since
    1970-01-01T00:00:00Z; a zone is a fixed offset from UTC. */
module Calendar {
  import opened Counters

  datatype Window = Hour1 | Hour5 | Day1 | Day7 | Day30

  datatype Span = Span(start: int, end: int)

  /** The order in which statuses are listed and Record visits the windows. */
  const SUPPORTED: seq<Window> := [Hour1, Hour5, Day1, Day7, Day30]

  function Rank(w: Window): nat {
    match w
    case Hour1 => 0
    case Hour5 => 1
    case Day1 => 2
    case Day7 => 3
    case Day30 => 4
  }

  /** Windows that start at first use instead of following the calendar. */
  predicate Independent(w: Window) {
    w.Hour5? || w.Day7?
  }

  /** The length of a window, calendar or first-use. */
  function Length(w: Window): (d: int)
    ensures d > 0
  {
    match w
    case Hour1 => 3_600_000_000_000
    case Hour5 => 18_000_000_000_000
    case Day1 => 86_400_000_000_000
    case Day7 => 604_800_000_000_000
    case Day30 => 2_592_000_000_000_000
  }

  /** Go's integer division truncates toward zero. */
  function Quo(a: int, d: int): int
    requires d > 0
  {
    if a >= 0 then a / d else -(-a / d)
  }

  /** time.Time.Sub saturates at the 64-bit nanosecond range (about 292 years). */
  function ElapsedSinceEpoch(local: int): int {
    Max(MIN_INT64, Min(MAX_INT64, local))
  }

  function FixedStart(local: int, w: Window): int {
    Quo(ElapsedSinceEpoch(local), Length(w)) * Length(w)
  }

  function FloorTo(local: int, w: Window): int {
    local / Length(w) * Length(w)
  }

  /** Days since 1970-01-01 of a local instant, which was a Thursday. */
  function DayNumber(local: int): int {
    local / 86_400_000_000_000
  }

  /** time.Weekday: 0 is Sunday. */
  function Weekday(day: int): int {
    (day + 4) % 7
  }

  function Bounds(w: Window, now: int, offset: int): Span {
    var local := now + offset;
    var start := match w
      case Hour1 => FloorTo(local, Hour1)
      case Day1 => FloorTo(local, Day1)
      case Day7 =>
        var day := DayNumber(local);
        (day - (Weekday(day) + 6) % 7) * 86_400_000_000_000
      case Hour5 => FixedStart(local, Hour5)
      case Day30 => FixedStart(local, Day30);
    Span(start - offset, start + Length(w) - offset)
  }

  /** The instants for which a window really contains the instant it was computed
      for. The two windows counted from the local epoch truncate toward it and
      saturate, so they also need an instant inside the first duration range. */
  predicate Covered(w: Window, now: int, offset: int) {
    var local := now + offset;
    match w
    case Hour1 => true
    case Day1 => true
    case Day7 => true
    case Hour5 => 0 <= local < 9_223_380_000_000_000_000 || (MIN_INT64 <= local < 0 && local % 18_000_000_000_000 == 0)
    case Day30 =>
      || 0 <= local < 9_224_928_000_000_000_000
      || (MIN_INT64 <= local < 0 && local % 2_592_000_000_000_000 == 0)
  }

  lemma MulMonotone(a: int, b: int, d: int)
    requires d > 0
    ensures a <= b <==> a * d <= b * d
  {
  }

  lemma {:induction false} QuotientOf(x: int, d: int, q: int)
    requires d > 0 && q * d <= x < (q + 1) * d
    ensures x / d == q
  {
    var r := x / d;
    assert r * d <= x < (r + 1) * d;
    MulMonotone(r + 1, q, d);
    MulMonotone(q + 1, r, d);
  }

  lemma FloorBounds(x: int, d: int)
    requires d > 0
    ensures x / d * d <= x < x / d * d + d
  {
  }

  lemma SameQuotient(x: int, y: int, d: int)
    requires d > 0
    ensures x / d * d <= y < x / d * d + d <==> y / d == x / d
  {
    var q := x / d;
    FloorBounds(y, d);
    assert q * d + d == (q + 1) * d;
    if q * d <= y < q * d + d {
      QuotientOf(y, d, q);
    }
  }

  lemma FloorMonotone(x: int, y: int, d: int)
    requires d > 0 && x <= y
    ensures x / d * d <= y / d * d
  {
    FloorBounds(x, d);
    FloorBounds(y, d);
    MulMonotone(y / d + 1, x / d, d);
    MulMonotone(x / d, y / d, d);
    assert (y / d + 1) * d == y / d * d + d;
  }

  lemma NextQuotient(q: int, d: int)
    requires d > 0
    ensures (q * d + d) / d == q + 1
  {
    QuotientOf(q * d + d, d, q + 1);
  }

  /** Flooring partitions the integers into intervals of length d. */
  lemma FloorTiles(x: int, y: int, d: int)
    requires d > 0
    ensures x / d * d <= x < x / d * d + d
    ensures x / d * d <= y < x / d * d + d <==> y / d == x / d
    ensures y == x / d * d + d ==> y / d == x / d + 1
    ensures x <= y ==> x / d * d <= y / d * d
  {
    FloorBounds(x, d);
    SameQuotient(x, y, d);
    NextQuotient(x / d, d);
    if x <= y {
      FloorMonotone(x, y, d);
    }
  }

  lemma WholeMultiple(n: int, d: int)
    requires d > 0
    ensures n / d * d == n <==> n % d == 0
    ensures (-n) % d == 0 <==> n % d == 0
  {
    var q := n / d;
    assert n == q * d + n % d;
    assert (-q) * d == -(q * d);
    if n % d == 0 {
      assert -n == (-q) * d;
      QuotientOf(-n, d, -q);
    }
    if (-n) % d == 0 {
      var r := -n / d;
      assert -n == r * d;
      assert (-r) * d == -(r * d);
      QuotientOf(n, d, -r);
    }
  }

  lemma FixedStartOf(local: int, w: Window)
    ensures MIN_INT64 <= local < 0 ==> FixedStart(local, w) == -(-local / Length(w) * Length(w))
    ensures 0 <= local <= MAX_INT64 ==> FixedStart(local, w) == local / Length(w) * Length(w)
  {
    var d := Length(w);
    hide Length;
    if MIN_INT64 <= local < 0 {
      assert (-(-local / d)) * d == -(-local / d * d);
    }
  }

  lemma FixedCovered(w: Window, now: int, offset: int)
    requires w.Hour5? || w.Day30?
    ensures Bounds(w, now, offset).start <= now < Bounds(w, now, offset).end <==> Covered(w, now, offset)
  {
    var local, d := now + offset, Length(w);
    FixedStartOf(local, w);
    if 0 <= local <= MAX_INT64 {
      FloorBounds(local, d);
    } else if MIN_INT64 <= local < 0 {
      FloorBounds(-local, d);
      WholeMultiple(-local, d);
    }
  }

  lemma WeekStart(now: int, offset: int)
    ensures Bounds(Day7, now, offset).start + offset ==
      ((now + offset + 259_200_000_000_000) / 604_800_000_000_000) * 604_800_000_000_000 - 259_200_000_000_000
  {
  }

  /** Every window starts at a multiple of its length; weeks are counted from a Monday. */
  lemma StartsOnFloor(w: Window, now: int, offset: int)
    requires w.Hour5? || w.Day30? ==> 0 <= now + offset <= MAX_INT64
    ensures var shift := if w.Day7? then offset + 259_200_000_000_000 else offset;
      Bounds(w, now, offset) ==
        Span((now + shift) / Length(w) * Length(w) - shift, (now + shift) / Length(w) * Length(w) - shift + Length(w))
  {
    if w.Day7? {
      WeekStart(now, offset);
    }
  }

  lemma BoundsContainNow(w: Window, now: int, offset: int)
    ensures Bounds(w, now, offset).end - Bounds(w, now, offset).start == Length(w)
    ensures Bounds(w, now, offset).start <= now < Bounds(w, now, offset).end <==> Covered(w, now, offset)
  {
    match w
    case Hour1 => FloorTiles(now + offset, now + offset, Length(w));
    case Day1 => FloorTiles(now + offset, now + offset, Length(w));
    case Day7 => WeekStart(now, offset);
    case Hour5 => FixedCovered(w, now, offset);
    case Day30 => FixedCovered(w, now, offset);
  }

  /** The windows of one kind tile time (those counted from the local epoch, from that
      epoch on): the window of an instant is the window of every instant in it, and the
      next one begins where it ends. */
  lemma WindowsTile(w: Window, now: int, other: int, offset: int)
    requires w.Hour5? || w.Day30? ==> 0 <= now + offset <= MAX_INT64 && 0 <= other + offset <= MAX_INT64
    ensures var s := Bounds(w, now, offset);
      && (s.start <= other < s.end <==> Bounds(w, other, offset) == s)
      && (other == s.end ==> Bounds(w, other, offset).start == s.end)
      && (now <= other ==> s.start <= Bounds(w, other, offset).start)
  {
    hide Bounds, Length;
    var shift := if w.Day7? then offset + 259_200_000_000_000 else offset;
    var x, y, d := now + shift, other + shift, Length(w);
    StartsOnFloor(w, now, offset);
    StartsOnFloor(w, other, offset);
    FloorTiles(x, y, d);
    MulMonotone(x / d, y / d, d);
    MulMonotone(y / d, x / d, d);
    MulMonotone(x / d + 1, y / d, d);
  }

  lemma WeekStartsOnMonday(now: int, offset: int)
    ensures var start := Bounds(Day7, now, offset).start + offset;
      start % 86_400_000_000_000 == 0 && Weekday(DayNumber(start)) == 1
  {
  }

  lemma IsMultiple(q: int, d: int)
    requires d > 0
    ensures (q * d) % d == 0
  {
    QuotientOf(q * d, d, q);
    WholeMultiple(q * d, d);
  }

  lemma FixedIsMultiple(local: int, w: Window)
    ensures FixedStart(local, w) % Length(w) == 0
  {
    IsMultiple(Quo(ElapsedSinceEpoch(local), Length(w)), Length(w));
  }

  /** In real time: 1h windows start at a whole hour and 1d windows at midnight, local time;
      5h and 30d windows start a whole number of their lengths from the local epoch; and all
      last as long as their names say. */
  lemma WindowsInRealTime(now: int, offset: int)
    ensures var s := Bounds(Hour1, now, offset);
      (s.start + offset) % 3_600_000_000_000 == 0 && s.end == s.start + 3_600_000_000_000
    ensures var s := Bounds(Hour5, now, offset);
      (s.start + offset) % 18_000_000_000_000 == 0 && s.end == s.start + 18_000_000_000_000
    ensures var s := Bounds(Day1, now, offset);
      (s.start + offset) % 86_400_000_000_000 == 0 && s.end == s.start + 86_400_000_000_000
    ensures var s := Bounds(Day30, now, offset);
      (s.start + offset) % 2_592_000_000_000_000 == 0 && s.end == s.start + 2_592_000_000_000_000
  {
    var local := now + offset;
    IsMultiple(local / Length(Hour1), Length(Hour1));
    IsMultiple(local / Length(Day1), Length(Day1));
    FixedIsMultiple(local, Hour5);
    FixedIsMultiple(local, Day30);
    hide FixedStart;
  }

  /** 7d windows start at midnight on a Monday, such as 5 January 1970, and last seven days. */
  lemma WeeksInRealTime(now: int, offset: int)
    ensures var s := Bounds(Day7, now, offset);
      (s.start + offset - 345_600_000_000_000) % 604_800_000_000_000 == 0 && s.end == s.start + 604_800_000_000_000
  {
    WeekStart(now, offset);
  }
}
