/** The auction listing: the countdown shown on each card, the card's derived price, status chip
    and image URL, and the list update after a delete. */
module AuctionList {
  import opened Text
  import Lists
  import opened AuctionTypes
  import opened NotificationsProvider

  const MsPerSecond: int := 1000
  const MsPerMinute: int := 60000
  const MsPerHour: int := 3600000
  const MsPerDay: int := 86400000

  /** What `getTimeLeft` returns. */
  datatype TimeLeft = TimeLeft(total: int, days: int, hours: int, minutes: int, seconds: int)

  // ---------------------------------------------------------------- integer division facts

  /** d * k grows with k. */
  lemma {:induction false} MulAtLeast(d: int, k: int)
    requires d > 0 && k >= 1
    ensures d * k >= d
  {
    if k > 1 {
      MulAtLeast(d, k - 1);
      assert d * k == d * (k - 1) + d;
    }
  }

  /** Division is determined by its quotient/remainder decomposition. */
  lemma DivUnique(a: int, d: int, q: int, r: int)
    requires d > 0 && 0 <= r < d && a == d * q + r
    ensures a / d == q
  {
    var q0, r0 := a / d, a % d;
    assert a == d * q0 + r0;
    assert d * q0 - d * q == d * (q0 - q);
    if q0 > q {
      MulAtLeast(d, q0 - q);
    } else if q0 < q {
      MulAtLeast(d, q - q0);
    }
  }

  /** Dividing by b and then by c is dividing by b * c. */
  lemma DivDiv(a: int, b: int, c: int)
    requires a >= 0 && b > 0 && c > 0
    ensures a / b / c == a / (b * c)
  {
    var q, r := a / b, a % b;
    var q2, r2 := q / c, q % c;
    assert a == b * q + r;
    assert q == c * q2 + r2;
    assert b * q == (b * c) * q2 + b * r2 by {
      assert b * (c * q2 + r2) == b * (c * q2) + b * r2;
    }
    assert b * r2 + b == b * (r2 + 1);
    assert r2 + 1 <= c;
    assert b * (r2 + 1) <= b * c by {
      if r2 + 1 < c {
        MulAtLeast(b, c - (r2 + 1));
        assert b * c - b * (r2 + 1) == b * (c - (r2 + 1));
      }
    }
    DivUnique(a, b * c, q2, b * r2 + r);
  }

  // ---------------------------------------------------------------- getTimeLeft

  /** `Math.trunc(a / d)`: division rounding toward zero. */
  function TruncDiv(a: int, d: int): int
    requires d > 0
  {
    if a >= 0 then a / d else -((-a) / d)
  }

  /** `Math.floor((total / unit) % modulus)` computed exactly. JavaScript's `%` keeps the sign of
      its dividend: x % m == x - m * trunc(x / m). Dafny's `/` by a positive divisor is floor. */
  function FloorRem(total: int, unit: int, modulus: int): int
    requires unit > 0 && modulus > 0
  {
    total / unit - modulus * TruncDiv(total, unit * modulus)
  }

  /** `getTimeLeft(end, now)`: the span end - now split into days, hours, minutes and seconds. */
  function GetTimeLeft(end: int, now: int): TimeLeft {
    var total := end - now;
    TimeLeft(
      total,
      total / MsPerDay,
      FloorRem(total, MsPerHour, 24),
      FloorRem(total, MsPerMinute, 60),
      FloorRem(total, MsPerSecond, 60))
  }

  /** On a non-negative span, FloorRem is the ordinary remainder of the quotient. */
  lemma FloorRemNonNegative(total: int, unit: int, modulus: int)
    requires total >= 0 && unit > 0 && modulus > 0
    ensures FloorRem(total, unit, modulus) == (total / unit) % modulus
    ensures total / unit / modulus == total / (unit * modulus)
  {
    DivDiv(total, unit, modulus);
  }

  /** For a non-negative span every field is in its clock range. */
  lemma TimeLeftInRange(end: int, now: int)
    requires end >= now
    ensures var l := GetTimeLeft(end, now);
      l.total == end - now && l.days >= 0 &&
      0 <= l.hours < 24 && 0 <= l.minutes < 60 && 0 <= l.seconds < 60
  {
    var total := end - now;
    FloorRemNonNegative(total, MsPerHour, 24);
    FloorRemNonNegative(total, MsPerMinute, 60);
    FloorRemNonNegative(total, MsPerSecond, 60);
  }

  /** The split loses only the sub-second remainder of a non-negative span. */
  lemma TimeLeftDecomposes(end: int, now: int)
    requires end >= now
    ensures var l := GetTimeLeft(end, now);
      l.days * MsPerDay + l.hours * MsPerHour + l.minutes * MsPerMinute
        + l.seconds * MsPerSecond + l.total % MsPerSecond == l.total
  {
    var t := end - now;
    FloorRemNonNegative(t, MsPerSecond, 60);
    FloorRemNonNegative(t, MsPerMinute, 60);
    FloorRemNonNegative(t, MsPerHour, 24);
    DivDiv(t, MsPerMinute, 60);
    DivDiv(t, MsPerHour, 24);
    var s := t / MsPerSecond;
    var m := t / MsPerMinute;
    var h := t / MsPerHour;
    var d := t / MsPerDay;
    assert t == MsPerSecond * s + t % MsPerSecond;
    assert s == 60 * m + s % 60;
    assert m == 60 * h + m % 60;
    assert h == 24 * d + h % 24;
  }

  // ---------------------------------------------------------------- formatTime

  /** One clock field, `n.toString().padStart(2, "0")`. */
  function ClockField(n: int): string {
    PadStart2(IntToString(n))
  }

  /** `formatTime(left)`: "[Nd ]HH:MM:SS". */
  function FormatTime(l: TimeLeft): string {
    DaysPrefix(l.days) + Clock(l)
  }

  function DaysPrefix(days: int): string {
    if days > 0 then IntToString(days) + "d " else ""
  }

  function Clock(l: TimeLeft): string {
    ClockField(l.hours) + ":" + ClockField(l.minutes) + ":" + ClockField(l.seconds)
  }

  predicate AllDigits(s: string) {
    forall i :: 0 <= i < |s| ==> IsDigit(s[i])
  }

  /** On in-range fields the text reads back: the last eight characters are HH:MM:SS with each
      field two digits long, and the "Nd " prefix is there exactly when days > 0 and holds days. */
  lemma FormatTimeReadsBack(l: TimeLeft)
    requires l.days >= 0 && 0 <= l.hours < 24 && 0 <= l.minutes < 60 && 0 <= l.seconds < 60
    ensures var r := FormatTime(l);
      && |r| >= 8
      && (|r| == 8 <==> l.days == 0)
      && r[|r| - 6] == ':' && r[|r| - 3] == ':'
      && AllDigits(r[|r| - 8..|r| - 6]) && DecimalValue(r[|r| - 8..|r| - 6]) == l.hours
      && AllDigits(r[|r| - 5..|r| - 3]) && DecimalValue(r[|r| - 5..|r| - 3]) == l.minutes
      && AllDigits(r[|r| - 2..]) && DecimalValue(r[|r| - 2..]) == l.seconds
      && (l.days > 0 ==>
            && |r| >= 11
            && r[|r| - 10..|r| - 8] == "d "
            && AllDigits(r[..|r| - 10]) && DecimalValue(r[..|r| - 10]) == l.days)
  {
    var p, c := DaysPrefix(l.days), Clock(l);
    assert FormatTime(l) == p + c;
    ClockReadsBack(l);
    DaysPrefixReadsBack(l.days);
    PrefixedClockReadsBack(p, c, l);
  }

  /** The read-back facts of a prefix and a clock carry over to their concatenation. */
  lemma PrefixedClockReadsBack(p: string, c: string, l: TimeLeft)
    requires |c| == 8 && c[2] == ':' && c[5] == ':'
    requires AllDigits(c[0..2]) && DecimalValue(c[0..2]) == l.hours
    requires AllDigits(c[3..5]) && DecimalValue(c[3..5]) == l.minutes
    requires AllDigits(c[6..]) && DecimalValue(c[6..]) == l.seconds
    requires l.days >= 0 && (p == "" <==> l.days == 0)
    requires l.days > 0 ==> |p| >= 3 && p[|p| - 2..] == "d " && AllDigits(p[..|p| - 2])
                            && DecimalValue(p[..|p| - 2]) == l.days
    ensures var r := p + c;
      && |r| >= 8
      && (|r| == 8 <==> l.days == 0)
      && r[|r| - 6] == ':' && r[|r| - 3] == ':'
      && AllDigits(r[|r| - 8..|r| - 6]) && DecimalValue(r[|r| - 8..|r| - 6]) == l.hours
      && AllDigits(r[|r| - 5..|r| - 3]) && DecimalValue(r[|r| - 5..|r| - 3]) == l.minutes
      && AllDigits(r[|r| - 2..]) && DecimalValue(r[|r| - 2..]) == l.seconds
      && (l.days > 0 ==>
            && |r| >= 11
            && r[|r| - 10..|r| - 8] == "d "
            && AllDigits(r[..|r| - 10]) && DecimalValue(r[..|r| - 10]) == l.days)
  {
    TailSlices(p, c);
    var r := p + c;
    if l.days > 0 {
      assert r[|r| - 10..|r| - 8] == p[|p| - 2..];
      assert r[..|r| - 10] == p[..|p| - 2];
    }
  }

  /** The clock reads back: HH:MM:SS, each field two digits holding its value. */
  lemma ClockReadsBack(l: TimeLeft)
    requires 0 <= l.hours < 24 && 0 <= l.minutes < 60 && 0 <= l.seconds < 60
    ensures var c := Clock(l);
      && |c| == 8 && c[2] == ':' && c[5] == ':'
      && AllDigits(c[0..2]) && DecimalValue(c[0..2]) == l.hours
      && AllDigits(c[3..5]) && DecimalValue(c[3..5]) == l.minutes
      && AllDigits(c[6..]) && DecimalValue(c[6..]) == l.seconds
  {
    var hh, mm, ss := ClockField(l.hours), ClockField(l.minutes), ClockField(l.seconds);
    TwoDigits(l.hours);
    TwoDigits(l.minutes);
    TwoDigits(l.seconds);
    var c := Clock(l);
    assert c[0..2] == hh && c[3..5] == mm && c[6..] == ss;
  }

  /** The "Nd " prefix holds the day count and is there only for a positive count. */
  lemma DaysPrefixReadsBack(days: int)
    requires days >= 0
    ensures var p := DaysPrefix(days);
      && (p == "" <==> days == 0)
      && (days > 0 ==> |p| >= 3 && p[|p| - 2..] == "d " && AllDigits(p[..|p| - 2])
                       && DecimalValue(p[..|p| - 2]) == days)
  {
    if days > 0 {
      DecimalRoundTrip(days);
      var p := DaysPrefix(days);
      assert p[..|p| - 2] == NatToString(days);
    }
  }

  /** Where the eight clock characters sit at the end of "prefix" + clock. */
  lemma TailSlices(p: string, c: string)
    requires |c| == 8
    ensures var r := p + c;
      && |r| == |p| + 8 && r[..|r| - 8] == p
      && r[|r| - 8..|r| - 6] == c[0..2] && r[|r| - 6] == c[2]
      && r[|r| - 5..|r| - 3] == c[3..5] && r[|r| - 3] == c[5]
      && r[|r| - 2..] == c[6..]
  {
  }

  // ---------------------------------------------------------------- Countdown

  /** Which of its three texts `Countdown` renders. */
  datatype Phase = StartsIn(left: TimeLeft) | EndsIn(left: TimeLeft) | HasEnded

  /** "Not started" is checked first, then "ended"; getTimeLeft is only ever asked about a
      strictly positive span. */
  function CountdownPhase(start: int, end: int, now: int): (p: Phase)
    ensures p.StartsIn? <==> now < start
    ensures p.EndsIn? <==> start <= now < end
    ensures p.HasEnded? <==> start <= now && end <= now
    ensures p.StartsIn? ==> p.left == GetTimeLeft(start, now) && p.left.total > 0
    ensures p.EndsIn? ==> p.left == GetTimeLeft(end, now) && p.left.total > 0
  {
    if now < start then StartsIn(GetTimeLeft(start, now))
    else if now >= end then HasEnded
    else EndsIn(GetTimeLeft(end, now))
  }

  function CountdownText(p: Phase): string {
    match p
    case StartsIn(left) => "Starts in " + FormatTime(left)
    case EndsIn(left) => "Ends in " + FormatTime(left)
    case HasEnded => "Ended"
  }

  /** The `Countdown` component: fixed start and end, and a `now` cell the interval timer
      refreshes every second (the clock reading is passed in). */
  class Countdown {
    const start: int
    const end: int
    var now: int

    constructor (startTime: int, endTime: int, clock: int)
      ensures start == startTime && end == endTime && now == clock
    {
      start, end, now := startTime, endTime, clock;
    }

    /** One tick of the interval: `setNow(Date.now())`. */
    method Tick(clock: int)
      modifies this`now
      ensures now == clock
    {
      now := clock;
    }

    function Text(): string
      reads this
    {
      CountdownText(CountdownPhase(start, end, now))
    }
  }

  /** What a countdown shows: "Starts in " or "Ends in " followed by the formatted time left to
      the next boundary, whose fields are in their clock ranges (so it reads back as
      `FormatTimeReadsBack` states), or "Ended". */
  lemma CountdownShows(c: Countdown)
    ensures var t := c.Text();
      && (c.now < c.start ==>
            var l := GetTimeLeft(c.start, c.now);
            && l.total > 0 && 0 <= l.hours < 24 && 0 <= l.minutes < 60 && 0 <= l.seconds < 60
            && |t| >= 18 && t[..10] == "Starts in " && t[10..] == FormatTime(l))
      && (c.start <= c.now < c.end ==>
            var l := GetTimeLeft(c.end, c.now);
            && l.total > 0 && 0 <= l.hours < 24 && 0 <= l.minutes < 60 && 0 <= l.seconds < 60
            && |t| >= 16 && t[..8] == "Ends in " && t[8..] == FormatTime(l))
      && (c.start <= c.now && c.end <= c.now ==> t == "Ended")
  {
    var t := c.Text();
    if c.now < c.start {
      var l := GetTimeLeft(c.start, c.now);
      TimeLeftInRange(c.start, c.now);
      FormatTimeReadsBack(l);
      assert t == "Starts in " + FormatTime(l);
    } else if c.now < c.end {
      var l := GetTimeLeft(c.end, c.now);
      TimeLeftInRange(c.end, c.now);
      FormatTimeReadsBack(l);
      assert t == "Ends in " + FormatTime(l);
    }
  }

  // ---------------------------------------------------------------- the card

  /** The status chip. */
  datatype Chip = EndedChip | SoonChip | LiveChip

  /** `isEnded ? "Ended" : isStartingSoon ? "Soon" : "Live"` with isEnded = now >= end and
      isStartingSoon = now < start. */
  function StatusChip(start: int, end: int, now: int): (c: Chip)
    ensures c == EndedChip <==> now >= end
    ensures c == SoonChip <==> now < start && now < end
    ensures c == LiveChip <==> start <= now < end
  {
    if now >= end then EndedChip else if now < start then SoonChip else LiveChip
  }

  /** The chip checks "ended" first and the countdown "not started" first; for the same clock
      reading on a window with start <= end they agree. */
  lemma ChipAgreesWithCountdown(start: int, end: int, now: int)
    requires start <= end
    ensures StatusChip(start, end, now) == SoonChip <==> CountdownPhase(start, end, now).StartsIn?
    ensures StatusChip(start, end, now) == LiveChip <==> CountdownPhase(start, end, now).EndsIn?
    ensures StatusChip(start, end, now) == EndedChip <==> CountdownPhase(start, end, now).HasEnded?
  {
  }

  /** Whether a chip and a countdown phase say the same thing. */
  predicate SamePhase(c: Chip, p: Phase) {
    || (c == SoonChip && p.StartsIn?)
    || (c == LiveChip && p.EndsIn?)
    || (c == EndedChip && p.HasEnded?)
  }

  /** On an inverted window (end < start) the two disagree exactly while end <= now < start: the
      chip already says Ended while the countdown still counts down to the start. Before the end
      both say "not started", and from the start on both say Ended. */
  lemma ChipDisagreesOnInvertedWindow(start: int, end: int, now: int)
    requires end < start
    ensures !SamePhase(StatusChip(start, end, now), CountdownPhase(start, end, now)) <==>
      end <= now < start
    ensures (StatusChip(start, end, now) == EndedChip && CountdownPhase(start, end, now).StartsIn?)
      <==> end <= now < start
    ensures now < end ==>
      StatusChip(start, end, now) == SoonChip && CountdownPhase(start, end, now).StartsIn?
    ensures start <= now ==>
      StatusChip(start, end, now) == EndedChip && CountdownPhase(start, end, now).HasEnded?
  {
  }

  /** The chip reads the clock once per render of the list, while the countdown refreshes its own
      `now` cell every second without re-rendering the list; a re-render of the list in turn gives
      the chip a fresh reading while the countdown keeps its last tick. So either reading can be
      the later one. On a window with start <= end the two disagree exactly when the start or the
      end separates the two readings: the chip can say Soon beside "Ends in ...", or Live beside
      "Starts in ...". */
  lemma ChipOnSeparateClock(start: int, end: int, chipNow: int, countdownNow: int)
    requires start <= end
    ensures !SamePhase(StatusChip(start, end, chipNow), CountdownPhase(start, end, countdownNow)) <==>
      (chipNow < start) != (countdownNow < start) || (chipNow < end) != (countdownNow < end)
    ensures chipNow < start <= countdownNow < end ==>
      StatusChip(start, end, chipNow) == SoonChip && CountdownPhase(start, end, countdownNow).EndsIn?
    ensures countdownNow < start <= chipNow < end ==>
      StatusChip(start, end, chipNow) == LiveChip && CountdownPhase(start, end, countdownNow).StartsIn?
  {
  }

  /** `Math.max(...amounts)` over a non-empty list. */
  function MaxOf(s: seq<real>): (m: real)
    requires |s| > 0
    ensures m in s
    ensures forall i :: 0 <= i < |s| ==> s[i] <= m
  {
    if |s| == 1 then s[0]
    else
      var rest := MaxOf(s[1..]);
      if s[0] >= rest then s[0] else rest
  }

  /** `highestBid ?? a.startingPrice`: the largest bid when there are bids, else the starting
      price. */
  function CurrentPrice(a: Auction): (p: real)
    ensures a.bids == [] ==> p == a.startingPrice
    ensures a.bids != [] ==> p in a.bids && forall i :: 0 <= i < |a.bids| ==> a.bids[i] <= p
  {
    if |a.bids| > 0 then MaxOf(a.bids) else a.startingPrice
  }

  /** The starting price is not a floor: a single bid below it is shown as the price. */
  lemma CurrentPriceIgnoresStartingPrice(a: Auction)
    requires a.startingPrice == 100.0 && a.bids == [80.0]
    ensures CurrentPrice(a) == 80.0 < a.startingPrice
  {
  }

  /** The card image: the placeholder when there is no first image URL, an absolute "http..."
      URL as it is, otherwise base/container/path with the SAS token appended after "?" or, when
      the string already holds a "?", after "&". */
  method CardImage(a: Auction, noImage: string, baseUrl: string, container: string, sasToken: string)
    returns (image: string)
    ensures a.imageUrls == [] || a.imageUrls[0] == "" ==> image == noImage
    ensures a.imageUrls != [] && a.imageUrls[0] != "" && StartsWith(a.imageUrls[0], "http") ==>
      image == a.imageUrls[0]
    ensures a.imageUrls != [] && a.imageUrls[0] != "" && !StartsWith(a.imageUrls[0], "http") ==>
      var stem := baseUrl + "/" + container + "/" + a.imageUrls[0];
      && StartsWith(image, stem)
      && (sasToken == "" ==> image == stem)
      && (sasToken != "" && '?' in stem ==> image == stem + "&" + sasToken)
      && (sasToken != "" && '?' !in stem ==> image == stem + "?" + sasToken)
  {
    image := noImage;
    if |a.imageUrls| > 0 && a.imageUrls[0] != "" {
      var imgUrl := a.imageUrls[0];
      if StartsWith(imgUrl, "http") {
        image := imgUrl;
      } else {
        image := baseUrl + "/" + container + "/" + imgUrl;
        if sasToken != "" {
          image := image + (if '?' in image then "&" + sasToken else "?" + sasToken);
        }
      }
    }
  }

  // ---------------------------------------------------------------- the list

  /** The id `handleDelete` filters on. */
  function AuctionId(a: Auction): string {
    a.id
  }

  /** The listing's `auctions` and `loading` cells. */
  class AuctionListView {
    var auctions: seq<Auction>
    var loading: bool

    constructor ()
      ensures auctions == [] && loading
    {
      auctions := [];
      loading := true;
    }

    /** `handleDelete(id)`. `deleted` is whether fetching the token and `deleteAuction` both
        succeeded. The list changes only after a successful delete. */
    method HandleDelete(id: string, isAuthenticated: bool, deleted: bool) returns (notice: Notice)
      modifies this`auctions
      ensures auctions == if isAuthenticated && deleted then Lists.RemoveById(AuctionId, old(auctions), id)
                          else old(auctions)
      ensures !isAuthenticated ==>
        notice == Notice("You must be logged in to delete an auction.", Error)
      ensures isAuthenticated && deleted ==> notice == Notice("Auction deleted successfully!", Success)
      ensures isAuthenticated && !deleted ==> notice == Notice("Failed to delete auction", Error)
    {
      if !isAuthenticated {
        notice := Notice("You must be logged in to delete an auction.", Error);
        return;
      }
      if deleted {
        auctions := Lists.RemoveById(AuctionId, auctions, id);
        notice := Notice("Auction deleted successfully!", Success);
      } else {
        notice := Notice("Failed to delete auction", Error);
      }
    }
  }
}
